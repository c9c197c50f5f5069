# EXTI and SYSCFG drivers for the STM32F446RE, modelled in Dafny

This project models two register-level drivers of the STM32F446RE low-level driver set:

- **The EXTI controller driver.**
  - Edge selection per line: the rising and falling trigger registers, RTSR and FTSR.
  - Interrupt masking: IMR.
  - Pending flags: PR, which is write-1-to-clear.
  - A 16-slot table holding one callback per line.
- **The SYSCFG router.** It writes a 4-bit port selector for each EXTI line into the four EXTICR registers. Line `n` lives in register `n / 4` at bit offset `(n % 4) * 4`.

## How the model is built

- **Registers (`bits.dfy`).**
  - A 32-bit register is a `Word`: the sequence of its 32 bits, least significant first.
  - The C operators `|`, `&`, `~`, `<<` and `>>` are defined bit by bit. A shift drops the bits pushed past bit 31, so the 32-bit truncation is explicit.
  - An unsigned constant or enum value becomes a word through `FromNat`, which reduces it modulo 2^32. `ValueOf` reads a bit string back as a number.
  - The constants `1U` and `0b1111` are the bit patterns `One()` and `Nibble()`. `OneIsOne` and `NibbleIsFifteen` prove that they are the numbers 1 and 15.
- **The EXTI driver (`exti.dfy`).**
  - `State` is a snapshot of the four registers and the callback table.
  - One function per driver call (`InitSpec`, `SetTriggerSrcSpec`, `EnableIrqSpec`, `DisableIrqSpec`, `ClearPendingFlagSpec`) says what the call does to a snapshot.
  - Class `Controller` holds the registers and the callback table (an `array`) as mutable fields.
  - Each `Controller` method runs the driver's statements in the driver's order. It is proved equal to the matching function.
- **The SYSCFG router (`syscfg.dfy`).**
  - Class `Router` holds `EXTICR[0..3]` as an `array` of words.
  - `SetExtiPort` clears the field, then ORs the port in, in place. It is proved to compute `SetExtiPortSpec`.
- **Types.**
  - Enum values (trigger source, init state, port) are plain numbers, so the driver's `default`/`else` error branches stay reachable.
  - A pointer that may be null is an `Option`. Callbacks are opaque identities.

## Model

| member | source | states |
|---|---|---|
| Bits.Mask | EXTI/Src/EXTI_Program.c:135 | `1U << n` has bit `n` set and every other bit clear |
| Bits.SetBit | EXTI/Src/EXTI_Program.c:135 | `w \| (1U << n)` is `w` with bit `n` set and every other bit unchanged |
| Bits.ClearBit | EXTI/Src/EXTI_Program.c:145 | `w & ~(1U << n)` is `w` with bit `n` clear and every other bit unchanged |
| Bits.OneIsOne | EXTI/Src/EXTI_Program.c:174 | the bit pattern used for `1U` is the unsigned number 1 |
| Exti.SetTriggerSrcSpec | EXTI/Src/EXTI_Program.c:102-126 | status is OK exactly for the three valid triggers, otherwise NOK, and never NULL_PTR_ERR. For a valid trigger, RTSR bit L is set unless the trigger is FALLING and FTSR bit L is set unless it is RISING. An invalid trigger leaves the state unchanged. No other bit of RTSR/FTSR changes; IMR, PR and the table never change |
| Exti.InitMask | EXTI/Src/EXTI_Program.c:60-72 | ENABLED sets IMR bit L and DISABLED clears it, both keeping the status so far; any other value gives NOK and leaves IMR unchanged; no other IMR bit changes |
| Exti.InitSpec | EXTI/Src/EXTI_Program.c:33-90 | a null config or a PinNum ≥ 16 gives NULL_PTR_ERR and changes nothing. NULL_PTR_ERR comes exactly from a null config, an out-of-range pin or a null callback; OK exactly when every field is valid; otherwise NOK. With an in-range pin: RTSR/FTSR are as `SetTriggerSrcSpec` leaves them even when the call fails; ENABLED sets IMR bit L, DISABLED clears it, any other value leaves IMR unchanged; a non-null callback is stored in slot PinNum only, a null one leaves the table unchanged; PR never changes. Nothing is rolled back |
| Exti.EnableIrqSpec | EXTI/Src/EXTI_Program.c:133-136 | IMR bit L is set, every other IMR bit and every other register is unchanged |
| Exti.DisableIrqSpec | EXTI/Src/EXTI_Program.c:143-146 | IMR bit L is clear, every other IMR bit and every other register is unchanged |
| Exti.PrAfterWrite | EXTI/Inc/EXTI_Interface.h:133 | writing a value to PR clears exactly the flags whose bits are 1 in the value and leaves the others |
| Exti.ClearPendingFlagSpec | EXTI/Src/EXTI_Program.c:153-156 | after the store `PR = 1U << L`, the flag of line L is clear, every other flag is unchanged, and nothing else changes |
| Exti.PendingFlag | EXTI/Src/EXTI_Program.c:174 | `(uint8_t)((PR >> L) & 1U)` is 0 or 1, and is 1 exactly when line L's pending bit is set |
| Exti.Controller.constructor | EXTI/Src/EXTI_Program.c:19 | every callback slot starts out null; the registers hold the values given |
| Exti.Controller.Init | EXTI/Src/EXTI_Program.c:33-90 | the driver's statement sequence returns the status and leaves the state `InitSpec` gives |
| Exti.Controller.SetTriggerSrc | EXTI/Src/EXTI_Program.c:102-126 | the status and new state are those of `SetTriggerSrcSpec` |
| Exti.Controller.EnableIrq | EXTI/Src/EXTI_Program.c:133-136 | the new state is `EnableIrqSpec` of the old |
| Exti.Controller.DisableIrq | EXTI/Src/EXTI_Program.c:143-146 | the new state is `DisableIrqSpec` of the old |
| Exti.Controller.ClearPendingFlag | EXTI/Src/EXTI_Program.c:153-156 | the new state is `ClearPendingFlagSpec` of the old |
| Exti.Controller.ReadPendingFlag | EXTI/Src/EXTI_Program.c:168-182 | a null out-pointer gives NOK and nothing is written. Otherwise the status is OK and the byte pointed to becomes 1 if line L is pending, else 0. The controller is not modified |
| Exti.EnableIdempotent | EXTI/Src/EXTI_Program.c:133-136 | enabling a line twice equals enabling it once |
| Exti.DisableIdempotent | EXTI/Src/EXTI_Program.c:143-146 | disabling a line twice equals disabling it once |
| Exti.EnableThenDisable | EXTI/Src/EXTI_Program.c:133-146 | enable then disable equals disable alone (the line ends masked) |
| Exti.DisableThenEnable | EXTI/Src/EXTI_Program.c:133-146 | disable then enable equals enable alone (the line ends unmasked) |
| Exti.TriggerLastWriteWins | EXTI/Src/EXTI_Program.c:106-123 | a valid trigger selection on a line overrides any earlier selection on it |
| Exti.ClearThenRead | EXTI/Src/EXTI_Program.c:153-182 | after clearing line L's flag, reading it gives 0 |
| Exti.InitIsComposition | EXTI/Src/EXTI_Program.c:33-90 | for a fully valid config, Init is SetTriggerSrc, then Enable or Disable, then storing the callback, and returns OK |
| Syscfg.RegisterIndex | SYSCFG/Src/SYSCFG_Program.c:28 | `line / 4` is below 4 and names the register whose four lines include `line` |
| Syscfg.BitOffset | SYSCFG/Src/SYSCFG_Program.c:31 | `(line % 4) * 4` is 0, 4, 8 or 12, and locates `line` within its register |
| Syscfg.DistinctFields | SYSCFG/Src/SYSCFG_Program.c:28-31 | two different lines differ in register or in offset |
| Syscfg.NibbleIsFifteen | SYSCFG/Src/SYSCFG_Program.c:34 | the bit pattern used for `0b1111` is the unsigned number 15 |
| Syscfg.FieldMask | SYSCFG/Src/SYSCFG_Program.c:34 | `0b1111 << o` has exactly the four bits of the field at offset `o` set |
| Syscfg.ReadPort | SYSCFG/Src/SYSCFG_Program.c:28-31 | the selector of a line, `(EXTICR[line/4] >> offset) & 0xF`, is below 16 and is the value of the line's four field bits |
| Syscfg.SetExtiPortSpec | SYSCFG/Src/SYSCFG_Program.c:25-38 | only register `line / 4` can change; the register count stays 4 |
| Syscfg.Router.SetExtiPort | SYSCFG/Src/SYSCFG_Program.c:25-38 | the in-place clear and OR leave the registers as `SetExtiPortSpec` gives |
| Syscfg.ReadBack | SYSCFG/Src/SYSCFG_Program.c:34-37 | for a port below 16, the line then reads back that port |
| Syscfg.OnlyFieldChanges | SYSCFG/Src/SYSCFG_Program.c:34-37 | for a port below 16, every bit outside the line's field, in every register, is unchanged |
| Syscfg.SelectorUpdate | SYSCFG/Src/SYSCFG_Program.c:25-38 | for a port below 16, the line's selector becomes the port and every other line's selector is unchanged |
| Syscfg.SetExtiPortIdempotent | SYSCFG/Src/SYSCFG_Program.c:25-38 | routing a line twice to the same port equals routing it once (for any port value) |
| Syscfg.LastWriteWins | SYSCFG/Src/SYSCFG_Program.c:25-38 | two routings of one line, the first with a port below 16, equal the second alone |
| Syscfg.DistinctLinesCommute | SYSCFG/Src/SYSCFG_Program.c:25-38 | routings of two different lines to ports below 16 commute |
| Syscfg.Line5PortC | SYSCFG/Src/SYSCFG_Program.c:28-37 | line 5 is in EXTICR[1] at offset 4; routing it to port C writes 0b0010 into bits 4-7 and reads back port C |
| Syscfg.WidePortSpills | SYSCFG/Src/SYSCFG_Program.c:37 | the value 16 does not fit: line 0 then reads 0 and the low bit of line 1's selector is set |
| Syscfg.InsertField | SYSCFG/Src/SYSCFG_Program.c:34-37 | for any port value, the bits below the field keep their value and the field holds the port's low four bits |
| Syscfg.InsertFieldAt | SYSCFG/Src/SYSCFG_Program.c:34-37 | each bit of an updated register, read off the driver's clear-then-OR expression |
| Syscfg.InsertFieldBits | SYSCFG/Src/SYSCFG_Program.c:34-37 | for a port below 16, the field's bits become the port's low four bits and every other bit is unchanged |

## Where code and its comments differ

- **NULL_PTR_ERR in Init.**
  - The documentation lists NULL_PTR_ERR only for a null configuration pointer (EXTI/Src/EXTI_Program.c:29, EXTI/Inc/EXTI_Interface.h:92).
  - The code also returns it for a null callback (EXTI/Src/EXTI_Program.c:81) and for a PinNum of 16 or more (:86).
  - The model follows the code. A null config and a null callback differ only in their effect on the state: a null config changes nothing; a null callback keeps the trigger and mask writes.
- **Line check in SetTriggerSrc.**
  - The header documents NOK for an invalid line number (EXTI/Inc/EXTI_Interface.h:106).
  - The code never checks the line. The model follows the code: it never returns NOK for the line, and lines are limited to 0-15 by the type of the argument.
- **Status precedence in Init.** The last failing check wins:
  - a null callback gives NULL_PTR_ERR even after an invalid trigger or state;
  - an invalid state gives NOK;
  - a later success never resets an earlier NOK.

## Left out

- Memory-mapped I/O, `volatile` access and the peripheral base addresses (`STM32F446xx.h` is not part of this model). The registers are plain fields.
- The hardware setting PR bits asynchronously when an edge occurs. PR only changes through the driver's write here.
- Callback dispatch from the interrupt handlers. No handler is in the modelled files, so the table is only written, never invoked.
- Concurrency between interrupt context and the driver calls.
- Exti.Controller.ClearPendingFlag: the literal assignment `PR = 1U << L` at EXTI/Src/EXTI_Program.c:155 is modelled by its effect under the write-1-to-clear rule, `PrAfterWrite`, not as a plain store of that value.
- The numeric values of OK, NOK and NULL_PTR_ERR (`ErrType.h` is not part of this model). They are the constructors of `Status`.
- `EXTI_LINES_NUM` is defined in a header that is not part of this model. It is taken as 16, the number of lines the enum and the callback table describe.
- `GPIO/Inc/GPIO_private.h`: GPIO register layout only, not used by these two drivers.
- Exti.Controller.SetTriggerSrc, Exti.Controller.EnableIrq, Exti.Controller.DisableIrq, Exti.Controller.ClearPendingFlag, Exti.Controller.ReadPendingFlag: the line argument is a number below 16.
  - The C code accepts any enum value without a check.
  - A value of 32 or more is undefined behaviour of the shift.
  - Values 16-31 would touch bits of lines the driver does not manage.
- Syscfg.Router.SetExtiPort: the line is limited the same way.
  - The `(uint8_t)` casts at SYSCFG/Src/SYSCFG_Program.c:28 and :31 have no effect for lines 0-15, so they are not modelled.
- Syscfg.ReadBack, Syscfg.OnlyFieldChanges, Syscfg.SelectorUpdate, Syscfg.LastWriteWins, Syscfg.DistinctLinesCommute: these require a port value below 16.
  - The enum only holds 0-7.
  - A larger value spills into the neighbouring field (shown by `Syscfg.WidePortSpills`).
  - The register update itself is modelled for every port value.
