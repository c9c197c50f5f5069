/**
 * 32-bit register words and the C operators the drivers apply to them.
 *
 * A word is the sequence of its 32 bits, least significant first: bit `i`
 * of the register is element `i`.  The operators `|`, `&`, `~`, `<<` and `>>`
 * of C's `unsigned int` are defined bit by bit, unsigned constants and enum
 * values enter through `FromNat` (reduction modulo 2^32), and `ValueOf`
 * reads a bit string back as an unsigned number.
 */
module Bits {
  /** Width of every register and of C's `unsigned int`. */
  const WIDTH: nat := 32

  type Word = w: seq<bool> | |w| == WIDTH witness seq(32, i => false)

  function Pow2(k: nat): (p: nat)
    ensures p >= 1
  {
    if k == 0 then 1 else 2 * Pow2(k - 1)
  }

  /** The low `k` bits of `n`, least significant first. */
  function BitsOf(n: nat, k: nat): (b: seq<bool>)
    ensures |b| == k
  {
    if k == 0 then [] else [n % 2 == 1] + BitsOf(n / 2, k - 1)
  }

  /** The unsigned number a bit string denotes, least significant bit first. */
  function ValueOf(b: seq<bool>): nat
  {
    if b == [] then 0 else (if b[0] then 1 else 0) + 2 * ValueOf(b[1..])
  }

  /** An unsigned constant or enum value as a C `unsigned int`: `n` modulo 2^32. */
  function FromNat(n: nat): Word
  {
    BitsOf(n, WIDTH)
  }

  /** `a | b` */
  function Or(a: Word, b: Word): Word
  {
    seq(WIDTH, i requires 0 <= i < WIDTH => a[i] || b[i])
  }

  /** `a & b` */
  function And(a: Word, b: Word): Word
  {
    seq(WIDTH, i requires 0 <= i < WIDTH => a[i] && b[i])
  }

  /** `~a` */
  function Not(a: Word): Word
  {
    seq(WIDTH, i requires 0 <= i < WIDTH => !a[i])
  }

  /** `a << k` for `k < 32`: bits shifted out at the top are lost. */
  function Shl(a: Word, k: nat): Word
    requires k < WIDTH
  {
    seq(WIDTH, i requires 0 <= i < WIDTH => k <= i && a[i - k])
  }

  /** `a >> k` for `k < 32`, a logical shift. */
  function Shr(a: Word, k: nat): Word
    requires k < WIDTH
  {
    seq(WIDTH, i requires 0 <= i < WIDTH => i + k < WIDTH && a[i + k])
  }

  /** The constant `1U`, bit 0 alone set (`OneIsOne` shows it is `FromNat(1)`). */
  function One(): Word
  {
    seq(WIDTH, i requires 0 <= i < WIDTH => i == 0)
  }

  /** `1U << n` */
  function Mask(n: nat): (m: Word)
    requires n < WIDTH
    ensures forall i :: 0 <= i < WIDTH ==> m[i] == (i == n)
  {
    Shl(One(), n)
  }

  /** `w | (1U << n)`: bit `n` set, every other bit unchanged. */
  function SetBit(w: Word, n: nat): (r: Word)
    requires n < WIDTH
    ensures r == w[n := true]
  {
    Or(w, Mask(n))
  }

  /** `w & ~(1U << n)`: bit `n` clear, every other bit unchanged. */
  function ClearBit(w: Word, n: nat): (r: Word)
    requires n < WIDTH
    ensures r == w[n := false]
  {
    And(w, Not(Mask(n)))
  }

  // Facts about numbers as bit strings.

  /** `2^m - 1` has exactly its low `m` bits set. */
  lemma {:induction false} LowOnes(n: nat, m: nat, k: nat)
    requires 1 <= m && n == Pow2(m) - 1
    ensures forall i :: 0 <= i < k ==> BitsOf(n, k)[i] == (i < m)
  {
    if k > 0 {
      assert n % 2 == 1 && n / 2 == Pow2(m - 1) - 1;
      if m == 1 {
        ZeroBits(k - 1);
      } else {
        LowOnes(n / 2, m - 1, k - 1);
      }
      assert BitsOf(n, k) == [true] + BitsOf(n / 2, k - 1);
    }
  }

  /** `One()` is the unsigned number 1. */
  lemma OneIsOne()
    ensures One() == FromNat(1)
  {
    LowOnes(1, 1, WIDTH);
  }

  /** `2^m` has bit `m` alone set. */
  lemma {:induction false} PowerBits(n: nat, m: nat, k: nat)
    requires n == Pow2(m)
    ensures forall i :: 0 <= i < k ==> BitsOf(n, k)[i] == (i == m)
  {
    if k > 0 {
      if m == 0 {
        ZeroBits(k - 1);
      } else {
        PowerBits(n / 2, m - 1, k - 1);
      }
      assert BitsOf(n, k) == [n % 2 == 1] + BitsOf(n / 2, k - 1);
    }
  }

  /** Zero has no bit set. */
  lemma {:induction false} ZeroBits(k: nat)
    ensures forall i :: 0 <= i < k ==> !BitsOf(0, k)[i]
  {
    if k > 0 {
      ZeroBits(k - 1);
      assert BitsOf(0, k) == [false] + BitsOf(0, k - 1);
    }
  }

  /** A number below `2^m` has no bit set at position `m` or above. */
  lemma {:induction false} HighBitsClear(n: nat, m: nat, k: nat)
    requires n < Pow2(m)
    ensures forall i :: m <= i < k ==> !BitsOf(n, k)[i]
  {
    if k > 0 {
      if m == 0 {
        assert n == 0;
        ZeroBits(k);
      } else {
        HighBitsClear(n / 2, m - 1, k - 1);
        assert BitsOf(n, k) == [n % 2 == 1] + BitsOf(n / 2, k - 1);
      }
    }
  }

  /** Reading back the low `k` bits of a number below `2^k` gives the number. */
  lemma {:induction false} ValueOfBits(n: nat, k: nat)
    requires n < Pow2(k)
    ensures ValueOf(BitsOf(n, k)) == n
  {
    if k > 0 {
      ValueOfBits(n / 2, k - 1);
      assert BitsOf(n, k)[1..] == BitsOf(n / 2, k - 1);
    }
  }

  /** Bits above the last set one add nothing to the value. */
  lemma {:induction false} ValueOfPrefix(b: seq<bool>, m: nat)
    requires m <= |b|
    requires forall i :: m <= i < |b| ==> !b[i]
    ensures ValueOf(b) == ValueOf(b[..m])
  {
    if m == 0 {
      AllClearValue(b);
    } else {
      ValueOfPrefix(b[1..], m - 1);
      assert b[1..][..m - 1] == b[..m][1..];
    }
  }

  lemma {:induction false} AllClearValue(b: seq<bool>)
    requires forall i :: 0 <= i < |b| ==> !b[i]
    ensures ValueOf(b) == 0
  {
    if b != [] {
      AllClearValue(b[1..]);
    }
  }
}
