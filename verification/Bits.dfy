/** Bitwise operations on natural numbers, one binary digit at a time. */
module Bits {
  function Pow2(n: nat): (p: nat)
    ensures p > 0
  {
    if n == 0 then 1 else 2 * Pow2(n - 1)
  }

  lemma {:induction false} PowSum(a: nat, b: nat)
    ensures Pow2(a + b) == Pow2(a) * Pow2(b)
  {
    if a > 0 {
      PowSum(a - 1, b);
    }
  }

  function XorBits(a: nat, b: nat): nat
    decreases a + b
  {
    if a == 0 && b == 0 then 0 else 2 * XorBits(a / 2, b / 2) + (if a % 2 == b % 2 then 0 else 1)
  }

  function AndBits(a: nat, b: nat): nat {
    if a == 0 || b == 0 then 0 else 2 * AndBits(a / 2, b / 2) + (if a % 2 == 1 && b % 2 == 1 then 1 else 0)
  }

  function OrBits(a: nat, b: nat): nat
    decreases a + b
  {
    if a == 0 && b == 0 then 0 else 2 * OrBits(a / 2, b / 2) + (if a % 2 == 0 && b % 2 == 0 then 0 else 1)
  }

  lemma {:induction false} XorBelow(a: nat, b: nat, bits: nat)
    requires a < Pow2(bits) && b < Pow2(bits)
    ensures XorBits(a, b) < Pow2(bits)
  {
    if bits > 0 {
      XorBelow(a / 2, b / 2, bits - 1);
    }
  }

  lemma {:induction false} AndBelow(a: nat, b: nat, bits: nat)
    requires a < Pow2(bits) && b < Pow2(bits)
    ensures AndBits(a, b) < Pow2(bits)
  {
    if bits > 0 {
      AndBelow(a / 2, b / 2, bits - 1);
    }
  }

  lemma {:induction false} OrBelow(a: nat, b: nat, bits: nat)
    requires a < Pow2(bits) && b < Pow2(bits)
    ensures OrBits(a, b) < Pow2(bits)
  {
    if bits > 0 {
      OrBelow(a / 2, b / 2, bits - 1);
    }
  }

  lemma {:induction false} XorCancels(a: nat, b: nat, x: nat)
    requires a != b
    ensures XorBits(a, x) != XorBits(b, x) && XorBits(x, a) != XorBits(x, b)
    decreases a + b
  {
    hide XorBits;
    XorUnfold(a, x);
    XorUnfold(b, x);
    XorUnfold(x, a);
    XorUnfold(x, b);
    if a % 2 == b % 2 {
      XorCancels(a / 2, b / 2, x / 2);
    }
  }

  lemma XorUnfold(a: nat, b: nat)
    ensures XorBits(a, b) / 2 == XorBits(a / 2, b / 2) && XorBits(a, b) % 2 == (if a % 2 == b % 2 then 0 else 1)
  {
  }

  lemma {:induction false} XorZero(a: nat)
    ensures XorBits(a, 0) == a
  {
    if a > 0 {
      XorZero(a / 2);
    }
  }

  /** Binary digit `k`, the lowest being 0. */
  function Digit(a: nat, k: nat): nat {
    if k == 0 then a % 2 else Digit(a / 2, k - 1)
  }

  // The operations are those of each digit by itself.
  lemma {:induction false} DigitsOf(a: nat, b: nat, k: nat)
    ensures Digit(XorBits(a, b), k) == (if Digit(a, k) == Digit(b, k) then 0 else 1)
    ensures Digit(AndBits(a, b), k) == (if Digit(a, k) == 1 && Digit(b, k) == 1 then 1 else 0)
    ensures Digit(OrBits(a, b), k) == (if Digit(a, k) == 0 && Digit(b, k) == 0 then 0 else 1)
    decreases k
  {
    hide XorBits, AndBits, OrBits;
    XorUnfold(a, b);
    AndUnfold(a, b);
    OrUnfold(a, b);
    if k > 0 {
      DigitsOf(a / 2, b / 2, k - 1);
    }
  }

  lemma AndUnfold(a: nat, b: nat)
    ensures AndBits(a, b) / 2 == AndBits(a / 2, b / 2)
    ensures AndBits(a, b) % 2 == (if a % 2 == 1 && b % 2 == 1 then 1 else 0)
  {
  }

  lemma OrUnfold(a: nat, b: nat)
    ensures OrBits(a, b) / 2 == OrBits(a / 2, b / 2)
    ensures OrBits(a, b) % 2 == (if a % 2 == 0 && b % 2 == 0 then 0 else 1)
  {
  }

  // Numbers with no binary digit in common are combined by adding them.
  lemma {:induction false} OrOfDisjoint(low: nat, high: nat, k: nat)
    requires low < Pow2(k)
    ensures OrBits(low, high * Pow2(k)) == low + high * Pow2(k)
  {
    if k == 0 {
      OrZero(high);
    } else {
      var b := high * Pow2(k);
      Halve(high, Pow2(k - 1));
      OrOfDisjoint(low / 2, high, k - 1);
    }
  }

  lemma Halve(x: nat, y: nat)
    ensures x * (2 * y) == 2 * (x * y)
  {
  }

  lemma {:induction false} OrZero(a: nat)
    ensures OrBits(0, a) == a
  {
    if a > 0 {
      OrZero(a / 2);
    }
  }

  lemma {:induction false} ShiftOut(x: nat, n: nat, m: nat)
    ensures x * Pow2(m) % Pow2(n + m) == x % Pow2(n) * Pow2(m)
  {
    if m > 0 {
      ShiftOut(x, n, m - 1);
      Halve(x, Pow2(m - 1));
      DoubleMod(x * Pow2(m - 1), Pow2(n + m - 1));
      Halve(x % Pow2(n), Pow2(m - 1));
    }
  }

  lemma DoubleMod(y: nat, m: nat)
    requires m > 0
    ensures 2 * y % (2 * m) == 2 * (y % m)
  {
    var q := y / m;
    assert q * (2 * m) == 2 * (q * m);
    assert 2 * y == q * (2 * m) + 2 * (y % m);
    RemainderIs(2 * y, 2 * m, q, 2 * (y % m));
  }

  lemma RemainderIs(x: nat, m: nat, q: nat, r: nat)
    requires m > 0 && x == q * m + r && r < m
    ensures x % m == r
  {
    var p := x / m;
    assert (p - q) * m == r - x % m by {
      Distribute(p, q, m);
    }
    if p > q {
      AtLeast(p - q, m);
    } else if p < q {
      Distribute(q, p, m);
      AtLeast(q - p, m);
    }
  }

  lemma Distribute(p: int, q: int, m: int)
    ensures (p - q) * m == p * m - q * m
  {
  }

  lemma {:induction false} AtLeast(d: nat, m: nat)
    requires d > 0
    ensures d * m >= m
  {
    if d > 1 {
      AtLeast(d - 1, m);
      Distribute(d, 1, m);
    }
  }
}
