/**
 * The SYSCFG line-to-port router: four 32-bit EXTICR registers, each holding
 * the 4-bit port selectors of four EXTI lines.  Line `n` lives in register
 * `n / 4` at bit offset `(n % 4) * 4`.
 *
 * The register block is simulated by `Router`, whose `extiCr` array stands for
 * `SYSCFG->EXTICR[0..3]`; `SetExtiPort` performs the driver's two in-place
 * steps (clear the field, then OR the port in) and is proved to compute
 * `SetExtiPortSpec`, whose properties are the lemmas of this module.
 */
module Syscfg {
  import opened Bits

  // SYSCFG_Port_t: GPIO port banks A to H, as the values the enum holds.
  const SYSCFG_PORTA: nat := 0
  const SYSCFG_PORTB: nat := 1
  const SYSCFG_PORTC: nat := 2
  const SYSCFG_PORTD: nat := 3
  const SYSCFG_PORTE: nat := 4
  const SYSCFG_PORTF: nat := 5
  const SYSCFG_PORTG: nat := 6
  const SYSCFG_PORTH: nat := 7

  /** Number of EXTI lines a port can be routed to. */
  const LINES: nat := 16

  /** `SYSCFG_IRQNum`: an EXTI line number, 0 to 15. */
  type Line = n: nat | n < LINES

  /** Number of EXTICR registers. */
  const EXTICR_COUNT: nat := 4

  /** Width of one port selector field. */
  const FIELD_WIDTH: nat := 4

  /** A bit offset at which a 4-bit selector field starts. */
  predicate IsFieldOffset(o: nat) {
    o == 0 || o == 4 || o == 8 || o == 12
  }

  /** Which EXTICR register holds the selector of `line`: `line / 4`. */
  function RegisterIndex(line: Line): (i: nat)
    ensures i < EXTICR_COUNT
    ensures 4 * i <= line < 4 * i + 4
  {
    line / 4
  }

  /** Where the selector of `line` starts inside its register: `(line % 4) * 4`. */
  function BitOffset(line: Line): (o: nat)
    ensures IsFieldOffset(o)
    ensures line == 4 * RegisterIndex(line) + o / 4
  {
    (line % 4) * 4
  }

  /** Two different lines never share both register and field. */
  lemma DistinctFields(l1: Line, l2: Line)
    requires l1 != l2
    ensures RegisterIndex(l1) != RegisterIndex(l2) || BitOffset(l1) != BitOffset(l2)
  {
  }

  /** Whether bit `i` belongs to the field at offset `o`. */
  predicate InField(i: int, o: nat) {
    o <= i < o + FIELD_WIDTH
  }

  /** The constant `0b1111`, bits 0 to 3 set (`NibbleIsFifteen` shows it is `FromNat(15)`). */
  function Nibble(): Word
  {
    seq(WIDTH, i requires 0 <= i < WIDTH => i < FIELD_WIDTH)
  }

  /** `Nibble()` is the unsigned number 15. */
  lemma NibbleIsFifteen()
    ensures Nibble() == FromNat(15)
  {
    LowOnes(15, 4, WIDTH);
  }

  /** `0b1111 << o`: exactly the bits of the field at offset `o`. */
  function FieldMask(o: nat): (m: Word)
    requires IsFieldOffset(o)
    ensures forall i :: 0 <= i < WIDTH ==> m[i] == InField(i, o)
  {
    Shl(Nibble(), o)
  }

  /** `(w >> o) & 0b1111`: the selector stored at offset `o`, as a number. */
  function Field(w: Word, o: nat): nat
    requires IsFieldOffset(o)
  {
    ValueOf(And(Shr(w, o), Nibble()))
  }

  /**
   * `(w & ~(0b1111 << o)) | (port << o)`: the driver's update of one register.
   * For any port value, the bits below the field keep their value and the
   * field holds the port's low four bits; `InsertFieldAt` gives the bits above.
   */
  function InsertField(w: Word, port: nat, o: nat): (r: Word)
    requires IsFieldOffset(o)
    ensures forall i | 0 <= i < o :: r[i] == w[i]
    ensures forall i | InField(i, o) :: r[i] == FromNat(port)[i - o]
  {
    Or(And(w, Not(FieldMask(o))), Shl(FromNat(port), o))
  }

  /** The port selector currently routed to `line`. */
  function ReadPort(regs: seq<Word>, line: Line): (p: nat)
    requires |regs| == EXTICR_COUNT
    ensures p < 16
    ensures p == ValueOf(regs[RegisterIndex(line)][BitOffset(line)..BitOffset(line) + FIELD_WIDTH])
  {
    var w, o := regs[RegisterIndex(line)], BitOffset(line);
    FieldValue(w, o);
    ValueOfBound(w[o..o + FIELD_WIDTH]);
    Field(w, o)
  }

  /** The register block after `SYSCFG_voidSetEXTIPort(port, line)`. */
  function SetExtiPortSpec(regs: seq<Word>, port: nat, line: Line): (r: seq<Word>)
    requires |regs| == EXTICR_COUNT
    ensures |r| == EXTICR_COUNT
    ensures forall k :: 0 <= k < EXTICR_COUNT && k != RegisterIndex(line) ==> r[k] == regs[k]
  {
    var i := RegisterIndex(line);
    regs[i := InsertField(regs[i], port, BitOffset(line))]
  }

  /** The SYSCFG peripheral's EXTICR register block. */
  class Router {
    const extiCr: array<Word>

    ghost predicate Valid()
      reads this
    {
      extiCr.Length == EXTICR_COUNT
    }

    constructor (initial: seq<Word>)
      requires |initial| == EXTICR_COUNT
      ensures Valid()
      ensures extiCr[..] == initial
      ensures fresh(extiCr)
    {
      extiCr := new Word[EXTICR_COUNT](k requires 0 <= k < EXTICR_COUNT => initial[k]);
    }

    /** `SYSCFG_voidSetEXTIPort`: route EXTI `line` to GPIO port `port`. */
    method SetExtiPort(port: nat, line: Line)
      requires Valid()
      modifies extiCr
      ensures Valid()
      ensures extiCr[..] == SetExtiPortSpec(old(extiCr[..]), port, line)
    {
      var registerNum := line / 4;
      var bitNum := (line % 4) * 4;
      extiCr[registerNum] := And(extiCr[registerNum], Not(FieldMask(bitNum)));
      extiCr[registerNum] := Or(extiCr[registerNum], Shl(FromNat(port), bitNum));
    }
  }

  // Properties of the router.

  /** After routing `line` to a port that fits the field, the line reads back that port. */
  lemma ReadBack(regs: seq<Word>, port: nat, line: Line)
    requires |regs| == EXTICR_COUNT
    requires port < 16
    ensures ReadPort(SetExtiPortSpec(regs, port, line), line) == port
  {
    var i, o := RegisterIndex(line), BitOffset(line);
    var w' := InsertField(regs[i], port, o);
    InsertFieldBits(regs[i], port, o);
    assert w'[o..o + FIELD_WIDTH] == FromNat(port)[..FIELD_WIDTH];
    LowBitsValue(port);
  }

  /** Every bit outside the selector of `line`, in every register, keeps its value. */
  lemma OnlyFieldChanges(regs: seq<Word>, port: nat, line: Line)
    requires |regs| == EXTICR_COUNT
    requires port < 16
    ensures forall k, b | 0 <= k < EXTICR_COUNT && 0 <= b < WIDTH
      && !(k == RegisterIndex(line) && InField(b, BitOffset(line)))
      :: SetExtiPortSpec(regs, port, line)[k][b] == regs[k][b]
  {
    var i, r := RegisterIndex(line), SetExtiPortSpec(regs, port, line);
    InsertFieldBits(regs[i], port, BitOffset(line));
    forall k, b | 0 <= k < EXTICR_COUNT && 0 <= b < WIDTH
      && !(k == i && InField(b, BitOffset(line)))
      ensures r[k][b] == regs[k][b]
    {
      if k == i {
        assert r[k] == InsertField(regs[i], port, BitOffset(line));
      }
    }
  }

  /** Routing one line changes the selector of that line only. */
  lemma SelectorUpdate(regs: seq<Word>, port: nat, line: Line, other: Line)
    requires |regs| == EXTICR_COUNT
    requires port < 16
    ensures ReadPort(SetExtiPortSpec(regs, port, line), other)
      == if other == line then port else ReadPort(regs, other)
  {
    if other == line {
      ReadBack(regs, port, line);
    } else {
      var r := SetExtiPortSpec(regs, port, line);
      var k, o := RegisterIndex(other), BitOffset(other);
      OnlyFieldChanges(regs, port, line);
      DistinctFields(line, other);
      forall b | InField(b, o) && 0 <= b < WIDTH
        ensures r[k][b] == regs[k][b]
      {
        assert !(k == RegisterIndex(line) && InField(b, BitOffset(line)));
      }
      SameField(r[k], regs[k], o);
    }
  }

  /** Routing a line twice to the same port is the same as routing it once. */
  lemma SetExtiPortIdempotent(regs: seq<Word>, port: nat, line: Line)
    requires |regs| == EXTICR_COUNT
    ensures SetExtiPortSpec(SetExtiPortSpec(regs, port, line), port, line)
      == SetExtiPortSpec(regs, port, line)
  {
    var i, o := RegisterIndex(line), BitOffset(line);
    var w1 := InsertField(regs[i], port, o);
    InsertFieldAt(regs[i], port, o);
    InsertFieldAt(w1, port, o);
    assert InsertField(w1, port, o) == w1;
  }

  /** Of two routings of the same line, the later one wins. */
  lemma LastWriteWins(regs: seq<Word>, first: nat, second: nat, line: Line)
    requires |regs| == EXTICR_COUNT
    requires first < 16
    ensures SetExtiPortSpec(SetExtiPortSpec(regs, first, line), second, line)
      == SetExtiPortSpec(regs, second, line)
  {
    var i, o := RegisterIndex(line), BitOffset(line);
    var w1 := InsertField(regs[i], first, o);
    InsertFieldBits(regs[i], first, o);
    InsertFieldAt(w1, second, o);
    InsertFieldAt(regs[i], second, o);
    assert InsertField(w1, second, o) == InsertField(regs[i], second, o);
  }

  /** Routings of two different lines can be performed in either order. */
  lemma DistinctLinesCommute(regs: seq<Word>, p1: nat, l1: Line, p2: nat, l2: Line)
    requires |regs| == EXTICR_COUNT
    requires p1 < 16 && p2 < 16
    requires l1 != l2
    ensures SetExtiPortSpec(SetExtiPortSpec(regs, p1, l1), p2, l2)
      == SetExtiPortSpec(SetExtiPortSpec(regs, p2, l2), p1, l1)
  {
    var i1, o1 := RegisterIndex(l1), BitOffset(l1);
    var i2, o2 := RegisterIndex(l2), BitOffset(l2);
    if i1 == i2 {
      DistinctFields(l1, l2);
      var w := regs[i1];
      var a, b := InsertField(w, p1, o1), InsertField(w, p2, o2);
      InsertFieldBits(w, p1, o1);
      InsertFieldBits(w, p2, o2);
      InsertFieldBits(a, p2, o2);
      InsertFieldBits(b, p1, o1);
      assert InsertField(a, p2, o2) == InsertField(b, p1, o1);
    }
  }

  /** Routing line 5 to port C writes 2 into bits 4 to 7 of EXTICR[1]. */
  lemma Line5PortC(regs: seq<Word>)
    requires |regs| == EXTICR_COUNT
    ensures RegisterIndex(5) == 1 && BitOffset(5) == 4
    ensures ReadPort(SetExtiPortSpec(regs, SYSCFG_PORTC, 5), 5) == SYSCFG_PORTC
    ensures var r := SetExtiPortSpec(regs, SYSCFG_PORTC, 5);
      !r[1][4] && r[1][5] && !r[1][6] && !r[1][7]
  {
    ReadBack(regs, SYSCFG_PORTC, 5);
    InsertFieldBits(regs[1], SYSCFG_PORTC, 4);
    assert FromNat(2) == BitsOf(2, WIDTH) == [false] + BitsOf(1, WIDTH - 1);
    LowOnes(1, 1, WIDTH - 1);
  }

  /**
   * The port value 16 does not fit its field: routing line 0 to it leaves
   * selector 0 in line 0 and sets the low bit of line 1's selector.
   */
  lemma WidePortSpills(regs: seq<Word>, port: nat)
    requires |regs| == EXTICR_COUNT
    requires port == 16
    ensures var r := SetExtiPortSpec(regs, port, 0);
      ReadPort(r, 0) == 0 && r[0][4]
  {
    var r := SetExtiPortSpec(regs, port, 0);
    assert Pow2(4) == 16;
    PowerBits(port, 4, WIDTH);
    InsertFieldAt(regs[0], port, 0);
    AllClearValue(r[0][0..4]);
  }

  // Bit-level facts behind the properties.

  /** Bit `i` of an updated register, read off the driver's expression. */
  lemma InsertFieldAt(w: Word, port: nat, o: nat)
    requires IsFieldOffset(o)
    ensures forall i :: 0 <= i < WIDTH ==>
      InsertField(w, port, o)[i] == ((w[i] && !InField(i, o)) || (o <= i && FromNat(port)[i - o]))
  {
  }

  /** A port below 16 lands in its field and nowhere else. */
  lemma InsertFieldBits(w: Word, port: nat, o: nat)
    requires IsFieldOffset(o)
    requires port < 16
    ensures forall i :: 0 <= i < WIDTH ==>
      InsertField(w, port, o)[i] == if InField(i, o) then FromNat(port)[i - o] else w[i]
  {
    InsertFieldAt(w, port, o);
    assert Pow2(4) == 16;
    HighBitsClear(port, 4, WIDTH);
  }

  /** The low four bits of a number below 16 denote the number. */
  lemma LowBitsValue(port: nat)
    requires port < 16
    ensures ValueOf(FromNat(port)[..FIELD_WIDTH]) == port
  {
    BitsOfPrefix(port, FIELD_WIDTH, WIDTH);
    assert Pow2(4) == 16;
    ValueOfBits(port, FIELD_WIDTH);
  }

  /** Two words that agree on a field hold the same selector there. */
  lemma SameField(x: Word, y: Word, o: nat)
    requires IsFieldOffset(o)
    requires forall b | InField(b, o) && 0 <= b < WIDTH :: x[b] == y[b]
    ensures x[o..o + FIELD_WIDTH] == y[o..o + FIELD_WIDTH]
  {
  }

  /** The selector read from a register is the value of its four field bits. */
  lemma FieldValue(w: Word, o: nat)
    requires IsFieldOffset(o)
    ensures Field(w, o) == ValueOf(w[o..o + FIELD_WIDTH])
  {
    var x := And(Shr(w, o), Nibble());
    ValueOfPrefix(x, FIELD_WIDTH);
    assert x[..FIELD_WIDTH] == w[o..o + FIELD_WIDTH];
  }

  /** A `k`-bit string denotes a number below `2^k`. */
  lemma {:induction false} ValueOfBound(b: seq<bool>)
    ensures ValueOf(b) < Pow2(|b|)
  {
    if b != [] {
      ValueOfBound(b[1..]);
    }
  }

  /** The low `j` of the low `k` bits of a number are its low `j` bits. */
  lemma {:induction false} BitsOfPrefix(n: nat, j: nat, k: nat)
    requires j <= k
    ensures BitsOf(n, k)[..j] == BitsOf(n, j)
  {
    if j > 0 {
      BitsOfPrefix(n / 2, j - 1, k - 1);
      assert BitsOf(n, k)[..j] == [n % 2 == 1] + BitsOf(n / 2, k - 1)[..j - 1];
    }
  }
}
