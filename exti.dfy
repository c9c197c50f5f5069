/**
 * The EXTI controller driver: per-line edge selection (RTSR, FTSR), interrupt
 * masking (IMR), pending flags (PR) and a table of one callback per line.
 *
 * `State` is a snapshot of everything the driver touches.  The functions
 * `InitSpec`, `SetTriggerSrcSpec`, `EnableIrqSpec`, `DisableIrqSpec` and
 * `ClearPendingFlagSpec` say what each driver call does to a snapshot, and
 * their contracts and the lemmas below state the promised behaviour.  The
 * class `Controller` holds the registers and the callback table as mutable
 * fields; each of its methods performs the driver's statements in the
 * driver's order and is proved to agree with the matching function.
 */
module Exti {
  import opened Wrappers
  import opened Bits

  /** `EXTI_LINES_NUM`: the lines the driver manages, one per GPIO pin number. */
  const LINES: nat := 16

  /** `EXTI_IRQNum`: an EXTI line number, 0 to 15. */
  type Line = n: nat | n < LINES

  /** The driver's return codes. */
  datatype Status = Ok | Nok | NullPtrErr

  // EXTI_TiggerSrc_t, as the values the enum holds.
  const FALLING_TRIG: nat := 0
  const RISING_TRIG: nat := 1
  const FALLING_RISING_TRIG: nat := 2

  // EXTI_InitState_t, as the values the enum holds.
  const ENABLED: nat := 0
  const DISABLED: nat := 1

  predicate IsTrigger(t: nat) {
    t == FALLING_TRIG || t == RISING_TRIG || t == FALLING_RISING_TRIG
  }

  predicate IsInitState(v: nat) {
    v == ENABLED || v == DISABLED
  }

  /** A `void (*)(void)` callback, known only by its identity. */
  datatype Callback = Callback(id: nat)

  /** `EXTI_Config_t`; a missing callback is a null function pointer. */
  datatype Config = Config(pinNum: nat, triggerSrc: nat, initState: nat, callBackFunc: Option<Callback>)

  /** The registers the driver touches and the callback table. */
  datatype State = State(rtsr: Word, ftsr: Word, imr: Word, pr: Word, callBacks: seq<Option<Callback>>)

  /** The table holds one entry per line. */
  predicate ValidState(s: State) {
    |s.callBacks| == LINES
  }

  /** A driver call's return code together with the state it leaves. */
  datatype Outcome = Outcome(status: Status, state: State)

  /** Whether `a` and `b` agree on every bit except bit `n`. */
  predicate SameExcept(a: Word, b: Word, n: Line) {
    forall k | 0 <= k < WIDTH && k != n :: a[k] == b[k]
  }

  /** `EXTI_u8SetTriggerSrc(t, line)` */
  function SetTriggerSrcSpec(s: State, t: nat, line: Line): (r: Outcome)
    ensures r.status == (if IsTrigger(t) then Ok else Nok)
    ensures IsTrigger(t) ==>
      r.state.rtsr[line] == (t != FALLING_TRIG) && r.state.ftsr[line] == (t != RISING_TRIG)
    ensures !IsTrigger(t) ==> r.state == s
    ensures SameExcept(r.state.rtsr, s.rtsr, line) && SameExcept(r.state.ftsr, s.ftsr, line)
    ensures r.state.imr == s.imr && r.state.pr == s.pr && r.state.callBacks == s.callBacks
  {
    if t == RISING_TRIG then
      Outcome(Ok, s.(rtsr := SetBit(s.rtsr, line), ftsr := ClearBit(s.ftsr, line)))
    else if t == FALLING_TRIG then
      Outcome(Ok, s.(ftsr := SetBit(s.ftsr, line), rtsr := ClearBit(s.rtsr, line)))
    else if t == FALLING_RISING_TRIG then
      Outcome(Ok, s.(rtsr := SetBit(s.rtsr, line), ftsr := SetBit(s.ftsr, line)))
    else
      Outcome(Nok, s)
  }

  /**
   * Init's mask step: IMR after `Init_State` `v` on `line`, with the status
   * it leaves.  A valid state keeps the status so far; any other value
   * reports NOK and leaves IMR as it was.
   */
  function InitMask(status: Status, imr: Word, v: nat, line: Line): (r: (Status, Word))
    ensures r.0 == if IsInitState(v) then status else Nok
    ensures IsInitState(v) ==> r.1[line] == (v == ENABLED)
    ensures SameExcept(r.1, imr, line)
    ensures !IsInitState(v) ==> r.1 == imr
  {
    if v == ENABLED then (status, SetBit(imr, line))
    else if v == DISABLED then (status, ClearBit(imr, line))
    else (Nok, imr)
  }

  /** `EXTI_u8Init(cfg)`; `None` is a null configuration pointer. */
  function InitSpec(s: State, cfg: Option<Config>): (r: Outcome)
    requires ValidState(s)
    ensures ValidState(r.state)
    ensures cfg.None? || cfg.value.pinNum >= LINES ==> r == Outcome(NullPtrErr, s)
    ensures r.status == NullPtrErr <==>
      cfg.None? || cfg.value.pinNum >= LINES || cfg.value.callBackFunc.None?
    ensures r.status == Ok <==>
      cfg.Some? && cfg.value.pinNum < LINES && IsTrigger(cfg.value.triggerSrc)
      && IsInitState(cfg.value.initState) && cfg.value.callBackFunc.Some?
    ensures cfg.Some? && cfg.value.pinNum < LINES ==>
      var c, line := cfg.value, cfg.value.pinNum;
      var t := SetTriggerSrcSpec(s, c.triggerSrc, line).state;
      && r.state.rtsr == t.rtsr && r.state.ftsr == t.ftsr
      && (c.initState == ENABLED ==> r.state.imr == s.imr[line := true])
      && (c.initState == DISABLED ==> r.state.imr == s.imr[line := false])
      && (!IsInitState(c.initState) ==> r.state.imr == s.imr)
      && r.state.callBacks == (if c.callBackFunc.Some? then s.callBacks[line := c.callBackFunc] else s.callBacks)
      && r.state.pr == s.pr
  {
    match cfg
    case None => Outcome(NullPtrErr, s)
    case Some(c) =>
      if c.pinNum < LINES then
        var line: Line := c.pinNum;
        var trig := SetTriggerSrcSpec(s, c.triggerSrc, line);
        var (status, imr) := InitMask(trig.status, s.imr, c.initState, line);
        if c.callBackFunc.Some? then
          Outcome(status, trig.state.(imr := imr, callBacks := s.callBacks[line := c.callBackFunc]))
        else
          Outcome(NullPtrErr, trig.state.(imr := imr))
      else
        Outcome(NullPtrErr, s)
  }

  /** `EXTI_u8EnableIRQ(line)`: unmask the line. */
  function EnableIrqSpec(s: State, line: Line): (r: State)
    ensures r.imr[line]
    ensures SameExcept(r.imr, s.imr, line)
    ensures r == s.(imr := r.imr)
  {
    s.(imr := SetBit(s.imr, line))
  }

  /** `EXTI_u8DisableIRQ(line)`: mask the line. */
  function DisableIrqSpec(s: State, line: Line): (r: State)
    ensures !r.imr[line]
    ensures SameExcept(r.imr, s.imr, line)
    ensures r == s.(imr := r.imr)
  {
    s.(imr := ClearBit(s.imr, line))
  }

  /**
   * The pending register after the driver writes `written` to it.  PR is
   * write-1-to-clear: a 1 clears the flag at that position and a 0 leaves it.
   */
  function PrAfterWrite(pr: Word, written: Word): (r: Word)
    ensures forall k | 0 <= k < WIDTH :: r[k] == (pr[k] && !written[k])
  {
    And(pr, Not(written))
  }

  /** `EXTI_u8ClearPendingFlag(line)`: writes `1U << line` to PR. */
  function ClearPendingFlagSpec(s: State, line: Line): (r: State)
    ensures !r.pr[line]
    ensures SameExcept(r.pr, s.pr, line)
    ensures r == s.(pr := r.pr)
  {
    s.(pr := PrAfterWrite(s.pr, Mask(line)))
  }

  /** `(uint8_t)((PR >> line) & 1U)`: the pending flag of `line` as 0 or 1. */
  function PendingFlag(pr: Word, line: Line): (f: nat)
    ensures f == 0 || f == 1
    ensures f == 1 <==> pr[line]
  {
    var x := And(Shr(pr, line), One());
    FlagValue(x[..8]);
    ValueOf(x[..8])
  }

  /** The value of a byte whose bits above bit 0 are clear is its bit 0. */
  lemma FlagValue(b: seq<bool>)
    requires |b| == 8
    requires forall i | 1 <= i < 8 :: !b[i]
    ensures ValueOf(b) == if b[0] then 1 else 0
  {
    ValueOfPrefix(b, 1);
    assert b[..1][1..] == [];
  }

  /** The EXTI peripheral's registers and the driver's callback table. */
  class Controller {
    var rtsr: Word
    var ftsr: Word
    var imr: Word
    var pr: Word
    /** `EXTI_CallBackFunctionPtr`, one slot per line. */
    const callBackFunctionPtr: array<Option<Callback>>

    ghost predicate Valid()
      reads this
    {
      callBackFunctionPtr.Length == LINES
    }

    /** The current registers and table as a value. */
    function Snapshot(): (s: State)
      reads this, callBackFunctionPtr
      requires Valid()
      ensures ValidState(s)
    {
      State(rtsr, ftsr, imr, pr, callBackFunctionPtr[..])
    }

    /** Registers as found at start-up; every callback slot starts out null. */
    constructor (rtsr0: Word, ftsr0: Word, imr0: Word, pr0: Word)
      ensures Valid()
      ensures Snapshot() == State(rtsr0, ftsr0, imr0, pr0, seq(LINES, _ => None))
      ensures fresh(callBackFunctionPtr)
    {
      rtsr, ftsr, imr, pr := rtsr0, ftsr0, imr0, pr0;
      callBackFunctionPtr := new Option<Callback>[LINES](_ => None);
    }

    /** `EXTI_u8Init` */
    method Init(cfg: Option<Config>) returns (status: Status)
      requires Valid()
      modifies this, callBackFunctionPtr
      ensures Valid()
      ensures Outcome(status, Snapshot()) == InitSpec(old(Snapshot()), cfg)
    {
      status := Ok;
      if cfg.Some? && cfg.value.pinNum < LINES {
        var c := cfg.value;
        var line: Line := c.pinNum;
        if c.triggerSrc == RISING_TRIG {
          rtsr := SetBit(rtsr, line);
          ftsr := ClearBit(ftsr, line);
        } else if c.triggerSrc == FALLING_TRIG {
          ftsr := SetBit(ftsr, line);
          rtsr := ClearBit(rtsr, line);
        } else if c.triggerSrc == FALLING_RISING_TRIG {
          rtsr := SetBit(rtsr, line);
          ftsr := SetBit(ftsr, line);
        } else {
          status := Nok;
        }
        if c.initState == ENABLED {
          imr := SetBit(imr, line);
        } else if c.initState == DISABLED {
          imr := ClearBit(imr, line);
        } else {
          status := Nok;
        }
        if c.callBackFunc.Some? {
          callBackFunctionPtr[line] := c.callBackFunc;
        } else {
          status := NullPtrErr;
        }
      } else {
        status := NullPtrErr;
      }
    }

    /** `EXTI_u8SetTriggerSrc` */
    method SetTriggerSrc(t: nat, line: Line) returns (status: Status)
      requires Valid()
      modifies this
      ensures Valid()
      ensures Outcome(status, Snapshot()) == SetTriggerSrcSpec(old(Snapshot()), t, line)
    {
      status := Ok;
      if t == RISING_TRIG {
        rtsr := SetBit(rtsr, line);
        ftsr := ClearBit(ftsr, line);
      } else if t == FALLING_TRIG {
        ftsr := SetBit(ftsr, line);
        rtsr := ClearBit(rtsr, line);
      } else if t == FALLING_RISING_TRIG {
        rtsr := SetBit(rtsr, line);
        ftsr := SetBit(ftsr, line);
      } else {
        status := Nok;
      }
    }

    /** `EXTI_u8EnableIRQ` */
    method EnableIrq(line: Line)
      requires Valid()
      modifies this
      ensures Valid()
      ensures Snapshot() == EnableIrqSpec(old(Snapshot()), line)
    {
      imr := Or(imr, Mask(line));
    }

    /** `EXTI_u8DisableIRQ` */
    method DisableIrq(line: Line)
      requires Valid()
      modifies this
      ensures Valid()
      ensures Snapshot() == DisableIrqSpec(old(Snapshot()), line)
    {
      imr := And(imr, Not(Mask(line)));
    }

    /**
     * `EXTI_u8ClearPendingFlag`: the store `PR = 1U << line`; on the
     * write-1-to-clear register its effect is `PrAfterWrite`.
     */
    method ClearPendingFlag(line: Line)
      requires Valid()
      modifies this
      ensures Valid()
      ensures Snapshot() == ClearPendingFlagSpec(old(Snapshot()), line)
    {
      pr := PrAfterWrite(pr, Mask(line));
    }

    /**
     * `EXTI_u8ReadPendingFlag`.  `flagStatus` is the out-pointer: `None` when
     * it is null, otherwise the byte it points to; `flagStatus'` is that byte
     * after the call.  Nothing in the controller changes.
     */
    method ReadPendingFlag(line: Line, flagStatus: Option<nat>) returns (status: Status, flagStatus': Option<nat>)
      ensures status == Ok <==> flagStatus.Some?
      ensures status == Nok <==> flagStatus.None?
      ensures flagStatus.None? ==> flagStatus' == None
      ensures flagStatus.Some? ==> flagStatus' == Some(if pr[line] then 1 else 0)
    {
      status := Ok;
      flagStatus' := flagStatus;
      if flagStatus.Some? {
        flagStatus' := Some(PendingFlag(pr, line));
      } else {
        status := Nok;
      }
    }
  }

  // Properties of the driver calls.

  /** Enabling an enabled line changes nothing. */
  lemma EnableIdempotent(s: State, line: Line)
    ensures EnableIrqSpec(EnableIrqSpec(s, line), line) == EnableIrqSpec(s, line)
  {
  }

  /** Disabling a disabled line changes nothing. */
  lemma DisableIdempotent(s: State, line: Line)
    ensures DisableIrqSpec(DisableIrqSpec(s, line), line) == DisableIrqSpec(s, line)
  {
  }

  /** Enable then disable leaves the line masked, as disable alone would. */
  lemma EnableThenDisable(s: State, line: Line)
    ensures DisableIrqSpec(EnableIrqSpec(s, line), line) == DisableIrqSpec(s, line)
  {
  }

  /** Disable then enable leaves the line unmasked, as enable alone would. */
  lemma DisableThenEnable(s: State, line: Line)
    ensures EnableIrqSpec(DisableIrqSpec(s, line), line) == EnableIrqSpec(s, line)
  {
  }

  /** A valid trigger selection replaces whatever the line had before. */
  lemma TriggerLastWriteWins(s: State, first: nat, second: nat, line: Line)
    requires IsTrigger(second)
    ensures SetTriggerSrcSpec(SetTriggerSrcSpec(s, first, line).state, second, line)
      == SetTriggerSrcSpec(s, second, line)
  {
  }

  /** After clearing a line's pending flag, reading it gives 0. */
  lemma ClearThenRead(s: State, line: Line)
    ensures PendingFlag(ClearPendingFlagSpec(s, line).pr, line) == 0
  {
  }

  /**
   * A fully valid configuration does what the separate calls would:
   * select the edges, unmask or mask the line, and store the callback.
   */
  lemma InitIsComposition(s: State, c: Config)
    requires ValidState(s)
    requires c.pinNum < LINES && IsTrigger(c.triggerSrc) && IsInitState(c.initState)
    requires c.callBackFunc.Some?
    ensures var line: Line := c.pinNum;
      var t := SetTriggerSrcSpec(s, c.triggerSrc, line);
      var m := if c.initState == ENABLED then EnableIrqSpec(t.state, line) else DisableIrqSpec(t.state, line);
      InitSpec(s, Some(c)) == Outcome(Ok, m.(callBacks := s.callBacks[line := c.callBackFunc]))
  {
  }
}
