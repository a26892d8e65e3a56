/** Bitwise operations on natural numbers, described bit by bit. */
module Bits {
  function Pow2(k: nat): (p: nat)
    ensures p > 0
  {
    if k == 0 then 1 else 2 * Pow2(k - 1)
  }

  predicate Bit(n: nat, i: nat) {
    if i == 0 then n % 2 == 1 else Bit(n / 2, i - 1)
  }

  function Or(a: nat, b: nat): nat {
    if a == 0 then b else if b == 0 then a else (if a % 2 == 1 || b % 2 == 1 then 1 else 0) + 2 * Or(a / 2, b / 2)
  }

  function And(a: nat, b: nat): nat {
    if a == 0 || b == 0 then 0 else (if a % 2 == 1 && b % 2 == 1 then 1 else 0) + 2 * And(a / 2, b / 2)
  }

  function Shl(a: nat, k: nat): nat { if k == 0 then a else 2 * Shl(a, k - 1) }

  function Shr(a: nat, k: nat): nat { if k == 0 then a else Shr(a / 2, k - 1) }

  /** `w` ones: (1 << w) - 1. */
  function Mask(w: nat): nat { Pow2(w) - 1 }

  /** The binary logarithm, rounded down; 0 for 0. */
  function LogBase2(n: nat): nat {
    if n > 1 then 1 + LogBase2(n / 2) else 0
  }

  lemma {:induction false} BitOfZero(i: nat)
    ensures !Bit(0, i)
  {
    if i > 0 { BitOfZero(i - 1); }
  }

  lemma {:induction false} BitOr(a: nat, b: nat, i: nat)
    ensures Bit(Or(a, b), i) <==> Bit(a, i) || Bit(b, i)
  {
    BitOfZero(i);
    if a != 0 && b != 0 && i > 0 { BitOr(a / 2, b / 2, i - 1); }
  }

  lemma {:induction false} BitAnd(a: nat, b: nat, i: nat)
    ensures Bit(And(a, b), i) <==> Bit(a, i) && Bit(b, i)
  {
    BitOfZero(i);
    if a != 0 && b != 0 && i > 0 { BitAnd(a / 2, b / 2, i - 1); }
  }

  lemma {:induction false} BitShl(a: nat, k: nat, i: nat)
    ensures Bit(Shl(a, k), i) <==> i >= k && Bit(a, i - k)
  {
    if k > 0 && i > 0 { BitShl(a, k - 1, i - 1); }
  }

  lemma {:induction false} BitShr(a: nat, k: nat, i: nat)
    ensures Bit(Shr(a, k), i) <==> Bit(a, i + k)
  {
    if k > 0 { BitShr(a / 2, k - 1, i); }
  }

  lemma {:induction false} BitMask(w: nat, i: nat)
    ensures Bit(Mask(w), i) <==> i < w
  {
    if w == 0 { BitOfZero(i); }
    else if i > 0 { BitMask(w - 1, i - 1); }
  }

  /** A number is its bits. */
  lemma {:induction false} SameBits(a: nat, b: nat)
    requires forall i: nat :: Bit(a, i) <==> Bit(b, i)
    ensures a == b
  {
    assert Bit(a, 0) <==> Bit(b, 0);
    if a != 0 || b != 0 {
      forall i: nat ensures Bit(a / 2, i) <==> Bit(b / 2, i) { assert Bit(a, i + 1) <==> Bit(b, i + 1); }
      SameBits(a / 2, b / 2);
    }
  }

  lemma {:induction false} NoHighBit(n: nat, w: nat, i: nat)
    requires n < Pow2(w) && i >= w
    ensures !Bit(n, i)
  {
    if w == 0 { BitOfZero(i); } else { NoHighBit(n / 2, w - 1, i - 1); }
  }

  lemma {:induction false} HighBit(n: nat, w: nat) returns (i: nat)
    requires n >= Pow2(w)
    ensures i >= w && Bit(n, i)
  {
    if w == 0 { HasBit(n); i :| Bit(n, i); }
    else {
      i := HighBit(n / 2, w - 1);
      i := i + 1;
    }
  }

  ghost predicate NoBitFrom(n: nat, w: nat) { forall i: nat :: i >= w ==> !Bit(n, i) }

  lemma BelowPow2(n: nat, w: nat)
    ensures n < Pow2(w) <==> NoBitFrom(n, w)
  {
    if n < Pow2(w) {
      forall i: nat | i >= w ensures !Bit(n, i) { NoHighBit(n, w, i); }
    } else {
      var i := HighBit(n, w);
      hide Bit, Pow2;
      assert i >= w && Bit(n, i);
    }
  }

  lemma {:induction false} HasBit(n: nat)
    requires n > 0
    ensures exists i: nat :: Bit(n, i)
  {
    if n % 2 == 1 { assert Bit(n, 0); } else {
      HasBit(n / 2);
      var i: nat :| Bit(n / 2, i);
      assert Bit(n, i + 1);
    }
  }

  /** Masking is the remainder, shifting right the quotient, by a power of two. */
  lemma {:induction false} MaskedIsRemainder(a: nat, w: nat)
    ensures And(a, Mask(w)) == a % Pow2(w)
  {
    if w == 0 { } else {
      MaskedIsRemainder(a / 2, w - 1);
      assert Mask(w) == 2 * Mask(w - 1) + 1;
      HalfRemainder(a, Pow2(w - 1));
    }
  }

  lemma HalfRemainder(a: nat, p: nat)
    requires p > 0
    ensures a % (2 * p) == a % 2 + 2 * ((a / 2) % p)
  {
    var q, r := (a / 2) / p, (a / 2) % p;
    assert a / 2 == q * p + r;
    assert a == q * (2 * p) + (a % 2 + 2 * r);
    Remainder(a, 2 * p, q, a % 2 + 2 * r);
  }

  lemma Remainder(a: nat, d: nat, q: nat, r: nat)
    requires d > 0 && a == q * d + r && r < d
    ensures a % d == r && a / d == q
  {
    var e := a / d - q;
    assert e * d == r - a % d by { assert a == (a / d) * d + a % d; assert e * d == (a / d) * d - q * d; }
    Multiple(e, d);
    assert e == 0;
  }

  lemma Multiple(e: int, d: nat)
    requires d > 0
    ensures e >= 1 ==> e * d >= d
    ensures e <= -1 ==> e * d + d <= 0
  {
  }

  lemma {:induction false} LogIsFloor(n: nat)
    requires n > 0
    ensures Pow2(LogBase2(n)) <= n < 2 * Pow2(LogBase2(n))
  {
    if n > 1 { LogIsFloor(n / 2); }
  }

  lemma {:induction false} LogOfPow2(k: nat)
    ensures LogBase2(Pow2(k)) == k
  {
    if k > 0 { LogOfPow2(k - 1); }
  }
}
