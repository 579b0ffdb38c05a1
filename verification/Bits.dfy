/** Bitwise operations of C's unsigned integers, on natural numbers.

    An unsigned value of width w is a natural number below Pow2(w). Or, And and
    AndNot are C's `a | b`, `a & b` and `a & ~b`; `1 << k` is Pow2(k). Each is
    characterised bit by bit, and a number is determined by its bits. */
module Bits {
  const U32 := 0x1_0000_0000
  const U64 := 0x1_0000_0000_0000_0000

  type Byte = x: int | 0 <= x < 256
  type Word = x: int | 0 <= x < U32

  type Address = x: int | 0 <= x < U64

  /** A Linux minor number: the low 20 bits of a dev_t. */
  type Minor = x: int | 0 <= x < 0x10_0000

  function Pow2(k: nat): (p: nat)
    ensures p > 0
  {
    if k == 0 then 1 else 2 * Pow2(k - 1)
  }

  predicate Bit(x: nat, k: nat) {
    if k == 0 then x % 2 == 1 else Bit(x / 2, k - 1)
  }

  function BoolBit(b: bool): nat {
    if b then 1 else 0
  }

  function Or(a: nat, b: nat): nat
    decreases a + b
  {
    if a == 0 && b == 0 then 0
    else BoolBit(a % 2 == 1 || b % 2 == 1) + 2 * Or(a / 2, b / 2)
  }

  function And(a: nat, b: nat): nat
    decreases a + b
  {
    if a == 0 && b == 0 then 0
    else BoolBit(a % 2 == 1 && b % 2 == 1) + 2 * And(a / 2, b / 2)
  }

  function AndNot(a: nat, b: nat): nat
    decreases a + b
  {
    if a == 0 && b == 0 then 0
    else BoolBit(a % 2 == 1 && b % 2 == 0) + 2 * AndNot(a / 2, b / 2)
  }

  lemma {:induction false} BitOfZero(k: nat)
    ensures !Bit(0, k)
  {
    if k > 0 {
      BitOfZero(k - 1);
    }
  }

  lemma {:induction false} BitOfPow2(i: nat, k: nat)
    ensures Bit(Pow2(i), k) == (i == k)
  {
    if i > 0 && k > 0 {
      BitOfPow2(i - 1, k - 1);
    } else if k > 0 {
      BitOfZero(k - 1);
    }
  }

  lemma OrStep(a: nat, b: nat)
    ensures Or(a, b) == BoolBit(a % 2 == 1 || b % 2 == 1) + 2 * Or(a / 2, b / 2)
  {
  }

  lemma {:induction false} BitOfOr(a: nat, b: nat, k: nat)
    ensures Bit(Or(a, b), k) == (Bit(a, k) || Bit(b, k))
  {
    hide Or;
    OrStep(a, b);
    if k > 0 {
      BitOfOr(a / 2, b / 2, k - 1);
    }
  }

  lemma AndNotStep(a: nat, b: nat)
    ensures AndNot(a, b) == BoolBit(a % 2 == 1 && b % 2 == 0) + 2 * AndNot(a / 2, b / 2)
  {
  }

  lemma {:induction false} BitOfAndNot(a: nat, b: nat, k: nat)
    ensures Bit(AndNot(a, b), k) == (Bit(a, k) && !Bit(b, k))
  {
    hide AndNot;
    AndNotStep(a, b);
    if k > 0 {
      BitOfAndNot(a / 2, b / 2, k - 1);
    }
  }

  /** The test `(a & (1 << k)) == 0` asks whether bit k is clear. */
  lemma {:induction false} AndPow2(a: nat, k: nat)
    ensures And(a, Pow2(k)) == 0 <==> !Bit(a, k)
  {
    if k > 0 {
      AndPow2(a / 2, k - 1);
      assert Pow2(k) / 2 == Pow2(k - 1) && Pow2(k) % 2 == 0;
    } else {
      AndZero(a / 2);
      assert And(a, 1) == BoolBit(a % 2 == 1) + 2 * And(a / 2, 0);
    }
  }

  lemma {:induction false} AndZero(a: nat)
    ensures And(a, 0) == 0
  {
    if a > 0 {
      AndZero(a / 2);
    }
  }

  lemma {:induction false} OrZero(a: nat)
    ensures Or(a, 0) == a && Or(0, a) == a
  {
    if a > 0 {
      OrZero(a / 2);
    }
  }

  /** Two numbers that agree on the bits below n, and have no others, are equal. */
  lemma {:induction false} SameBits(a: nat, b: nat, n: nat)
    requires a < Pow2(n) && b < Pow2(n)
    requires forall k | 0 <= k < n :: Bit(a, k) == Bit(b, k)
    ensures a == b
  {
    if n > 0 {
      assert Bit(a, 0) == Bit(b, 0);
      forall k | 0 <= k < n - 1
        ensures Bit(a / 2, k) == Bit(b / 2, k)
      {
        assert Bit(a, k + 1) == Bit(b, k + 1);
      }
      SameBits(a / 2, b / 2, n - 1);
    }
  }

  lemma {:induction false} OrBound(a: nat, b: nat, n: nat)
    requires a < Pow2(n) && b < Pow2(n)
    ensures Or(a, b) < Pow2(n)
  {
    if n > 0 && !(a == 0 && b == 0) {
      OrBound(a / 2, b / 2, n - 1);
    }
  }

  lemma {:induction false} AndNotBound(a: nat, b: nat)
    ensures AndNot(a, b) <= a
  {
    if !(a == 0 && b == 0) {
      AndNotBound(a / 2, b / 2);
    }
  }

  lemma {:induction false} Pow2Monotone(i: nat, n: nat)
    requires i <= n
    ensures Pow2(i) <= Pow2(n)
  {
    if i < n {
      Pow2Monotone(i, n - 1);
    }
  }

  lemma {:induction false} OrAtLeast(a: nat, b: nat)
    ensures Or(a, b) >= a
  {
    if !(a == 0 && b == 0) {
      OrAtLeast(a / 2, b / 2);
    }
  }

  /** Or-ing a in twice is or-ing it in once, and it does not matter which of its bits b has. */
  lemma {:induction false} OrAbsorbs(a: nat, b: nat)
    ensures Or(a, Or(a, b)) == Or(a, b)
    ensures Or(a, AndNot(b, a)) == Or(a, b)
    decreases a + b
  {
    hide Or, AndNot;
    if a == 0 && b == 0 {
      OrZero(0);
      AndNotBound(0, 0);
    } else {
      OrAbsorbs(a / 2, b / 2);
      OrStep(a, b);
      OrStep(a, Or(a, b));
      AndNotStep(b, a);
      OrStep(a, AndNot(b, a));
    }
  }

  /** Whoever loses no bit of a by losing a's bits, and has them all, has none: a is 0. */
  lemma {:induction false} OrOrAndNot(a: nat, b: nat)
    requires Or(a, b) == b && AndNot(b, a) == b
    ensures a == 0
  {
    if a > 0 {
      hide Or, AndNot;
      OrStep(a, b);
      AndNotStep(b, a);
      OrOrAndNot(a / 2, b / 2);
    }
  }

  /** Or-ing values that are shifted by k bits leaves what lies below those bits alone. */
  lemma {:induction false} OrShifted(a: nat, b: nat, low: nat, k: nat)
    requires low < Pow2(k)
    ensures Or(a * Pow2(k), b * Pow2(k) + low) == Or(a, b) * Pow2(k) + low
  {
    if k > 0 {
      var h := Pow2(k - 1);
      assert Pow2(k) == 2 * h;
      hide Or, Pow2;
      OrShifted(a, b, low / 2, k - 1);
      ShiftOnce(a, b, low, h);
    }
  }

  lemma ShiftOnce(a: nat, b: nat, low: nat, h: nat)
    requires Or(a * h, b * h + low / 2) == Or(a, b) * h + low / 2
    ensures Or(a * (2 * h), b * (2 * h) + low) == Or(a, b) * (2 * h) + low
  {
    hide Or;
    Doubled(a, h);
    Doubled(b, h);
    Doubled(Or(a, b), h);
    OrOfDoubles(a * h, b * h, low);
  }

  lemma OrOfDoubles(x: nat, y: nat, low: nat)
    ensures Or(2 * x, 2 * y + low) == low % 2 + 2 * Or(x, y + low / 2)
  {
    hide Or;
    OrStep(2 * x, 2 * y + low);
    assert (2 * y + low) / 2 == y + low / 2 && (2 * x) / 2 == x;
  }

  lemma Doubled(a: nat, h: nat)
    ensures a * (2 * h) == 2 * (a * h)
  {
  }

  /** Fields that do not overlap: or-ing a value below 2^k into a multiple of 2^k adds it. */
  lemma OrDisjoint(a: nat, b: nat, k: nat)
    requires b < Pow2(k)
    ensures Or(a * Pow2(k), b) == a * Pow2(k) + b
  {
    hide Or;
    OrZero(a);
    OrShifted(a, 0, b, k);
  }

  lemma MulMonotone(a: nat, b: nat, d: nat)
    ensures a <= b ==> a * d <= b * d
  {
  }

  lemma ModUnique(x: nat, q: nat, m: nat, d: nat)
    requires m < d && x == q * d + m
    ensures x % d == m && x / d == q
  {
    var q' := x / d;
    MulMonotone(q + 1, q', d);
    MulMonotone(q' + 1, q, d);
  }

  lemma DoubledMod(r: nat, bit: nat, h: nat)
    requires h > 0 && bit < 2
    ensures (bit + 2 * r) % (2 * h) == bit + 2 * (r % h)
  {
    var q, m := r / h, r % h;
    ModUnique(bit + 2 * r, q, bit + 2 * m, 2 * h);
  }

  /** Or-ing in a multiple of 2^k leaves the low k bits alone. */
  lemma {:induction false} OrLow(a: nat, b: nat, k: nat)
    ensures Or(a * Pow2(k), b) % Pow2(k) == b % Pow2(k)
  {
    hide Or;
    if k > 0 {
      var h := Pow2(k - 1);
      var x := a * h;
      assert a * Pow2(k) == 2 * x && (2 * x) / 2 == x;
      OrLow(a, b / 2, k - 1);
      OrStep(2 * x, b);
      DoubledMod(Or(x, b / 2), b % 2, h);
      DoubledMod(b / 2, b % 2, h);
    }
  }
}
