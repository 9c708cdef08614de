/**
 Unsigned machine words and their binary digits.

 A word of n bits is a natural number below Pow2(n). The bitwise operators
 are defined digit by digit; shifting is done one place at a time and drops
 the digits that leave a 64-bit word.
 */
module Words {

  type byte = x: nat | x < 256
  type uint16 = x: nat | x < 0x1_0000
  type uint32 = x: nat | x < 0x1_0000_0000
  type uint64 = x: nat | x < 0x1_0000_0000_0000_0000

  const UINT64_MAX: uint64 := 0xFFFF_FFFF_FFFF_FFFF

  function Pow2(n: nat): (p: nat)
    ensures p > 0
  {
    if n == 0 then 1 else 2 * Pow2(n - 1)
  }

  /** Bit k of w, counted from the least significant one. */
  predicate Bit(w: nat, k: nat) {
    if k == 0 then w % 2 == 1 else Bit(w / 2, k - 1)
  }

  function And(v: nat, w: nat): (r: nat)
    ensures r <= v
  {
    if v == 0 then 0 else (v % 2) * (w % 2) + 2 * And(v / 2, w / 2)
  }

  function Or(v: nat, w: nat): (r: nat)
    decreases v + w
  {
    if v == 0 then w else if w == 0 then v
    else (if v % 2 == 1 || w % 2 == 1 then 1 else 0) + 2 * Or(v / 2, w / 2)
  }

  function Not(w: uint64): uint64 {
    UINT64_MAX - w
  }

  function Shl(w: uint64, b: nat): uint64 {
    if b == 0 then w else (2 * Shl(w, b - 1)) % 0x1_0000_0000_0000_0000
  }

  function Shr(w: nat, b: nat): (r: nat)
    ensures r <= w
  {
    if b == 0 then w else Shr(w / 2, b - 1)
  }

  /** The word with the n lowest bits set, computed the way the bit slices do. */
  function Mask(n: nat): uint64
    requires n <= 64
  {
    if n == 64 then UINT64_MAX
    else
      ShlOne(n);
      Shl(1, n) - 1
  }

  lemma Pow2At64()
    ensures Pow2(64) == 0x1_0000_0000_0000_0000
  {
    hide Pow2;
    Pow2At8();
    Pow2Add(8, 8);
    Pow2Add(16, 16);
    Pow2Add(32, 32);
  }

  lemma Pow2At8()
    ensures Pow2(8) == 256
  {
  }

  lemma {:induction false} Pow2Add(a: nat, b: nat)
    ensures Pow2(a + b) == Pow2(a) * Pow2(b)
  {
    if a > 0 {
      Pow2Add(a - 1, b);
      MulTwice(Pow2(a - 1), Pow2(b));
    }
  }

  lemma MulTwice(p: nat, q: nat)
    ensures 2 * (p * q) == (2 * p) * q
  {
  }

  lemma {:induction false} BitOfZero(k: nat)
    ensures !Bit(0, k)
  {
    if k > 0 { BitOfZero(k - 1); }
  }

  lemma {:induction false} BitAnd(v: nat, w: nat, k: nat)
    ensures Bit(And(v, w), k) == (Bit(v, k) && Bit(w, k))
  {
    BitOfZero(k);
    if v > 0 && k > 0 { BitAnd(v / 2, w / 2, k - 1); }
  }

  lemma {:induction false} BitOr(v: nat, w: nat, k: nat)
    ensures Bit(Or(v, w), k) == (Bit(v, k) || Bit(w, k))
  {
    BitOfZero(k);
    if v > 0 && w > 0 && k > 0 { BitOr(v / 2, w / 2, k - 1); }
  }

  lemma {:induction false} BitComplement(w: nat, n: nat, k: nat)
    requires w < Pow2(n) && k < n
    ensures Bit(Pow2(n) - 1 - w, k) == !Bit(w, k)
  {
    if k > 0 {
      assert (Pow2(n) - 1 - w) / 2 == Pow2(n - 1) - 1 - w / 2;
      BitComplement(w / 2, n - 1, k - 1);
    }
  }

  lemma BitNot(w: uint64, k: nat)
    requires k < 64
    ensures Bit(Not(w), k) == !Bit(w, k)
  {
    Pow2At64();
    BitComplement(w, 64, k);
  }

  lemma {:induction false} BitShr(w: nat, b: nat, k: nat)
    ensures Bit(Shr(w, b), k) == Bit(w, k + b)
  {
    if b > 0 { BitShr(w / 2, b - 1, k); }
  }

  /** Reducing modulo Pow2(n) keeps the n lowest bits and clears the others. */
  lemma {:induction false} BitMod(w: nat, n: nat, k: nat)
    ensures Bit(w % Pow2(n), k) == (k < n && Bit(w, k))
  {
    if n == 0 {
      BitOfZero(k);
    } else {
      ModHalf(w, Pow2(n - 1));
      if k > 0 { BitMod(w / 2, n - 1, k - 1); }
    }
  }

  lemma ModHalf(w: nat, p: nat)
    requires p > 0
    ensures (w % (2 * p)) / 2 == (w / 2) % p
    ensures (w % (2 * p)) % 2 == w % 2
  {
    var q := w / (2 * p);
    var r := w % (2 * p);
    assert w == q * (2 * p) + r;
    assert q * (2 * p) == 2 * (q * p);
    assert w / 2 == q * p + r / 2;
    assert r / 2 < p;
    ModUnique(w / 2, p, q, r / 2);
  }

  lemma ModUnique(x: int, p: nat, q: int, r: nat)
    requires p > 0 && x == q * p + r && r < p
    ensures x % p == r && x / p == q
  {
    var d := x / p - q;
    assert x == p * (x / p) + x % p;
    assert p * d == r - x % p by {
      assert p * d == p * (x / p) - p * q;
    }
    if d != 0 { MulAway(p, d); }
  }

  lemma MulAway(p: int, d: int)
    requires p > 0 && d != 0
    ensures p * d >= p || p * d <= -p
  {
  }

  lemma {:induction false} BitShl(w: uint64, b: nat, k: nat)
    requires k < 64
    ensures Bit(Shl(w, b), k) == (k >= b && Bit(w, k - b))
  {
    if b > 0 {
      Pow2At64();
      BitMod(2 * Shl(w, b - 1), 64, k);
      if k > 0 { BitShl(w, b - 1, k - 1); }
    }
  }

  lemma Pow2Fits(n: nat)
    requires n < 64
    ensures 2 * Pow2(n) <= 0x1_0000_0000_0000_0000
  {
    hide Pow2;
    Pow2At64();
    Pow2Less(n, 64);
  }

  lemma {:induction false} ShlOne(n: nat)
    requires n < 64
    ensures Shl(1, n) == Pow2(n)
  {
    Pow2Fits(n);
    if n > 0 { ShlOne(n - 1); }
  }

  lemma {:induction false} Pow2Less(a: nat, b: nat)
    requires a < b
    ensures 2 * Pow2(a) <= Pow2(b)
  {
    if a + 1 < b { Pow2Less(a, b - 1); }
  }

  lemma MaskIs(n: nat)
    requires n <= 64
    ensures Mask(n) == Pow2(n) - 1
  {
    Pow2At64();
    if n < 64 {
      ShlOne(n);
      Pow2Less(n, 64);
    }
  }

  lemma BitMask(n: nat, k: nat)
    requires n <= 64 && k < 64
    ensures Bit(Mask(n), k) == (k < n)
  {
    MaskIs(n);
    if k < n {
      BitComplement(0, n, k);
      BitOfZero(k);
    } else {
      NoHighBits(Pow2(n) - 1, n, k);
    }
  }

  lemma {:induction false} NoHighBits(w: nat, n: nat, k: nat)
    requires w < Pow2(n) && n <= k
    ensures !Bit(w, k)
  {
    if n == 0 {
      BitOfZero(k);
    } else {
      NoHighBits(w / 2, n - 1, k - 1);
    }
  }

  /** A number below Pow2(n) is determined by its n lowest bits. */
  lemma {:induction false} SameBits(v: nat, w: nat, n: nat)
    requires v < Pow2(n) && w < Pow2(n)
    requires forall k: nat {:trigger Bit(v, k)} | k < n :: Bit(v, k) == Bit(w, k)
    ensures v == w
  {
    if n > 0 {
      forall k: nat {:trigger Bit(v / 2, k)} | k < n - 1
        ensures Bit(v / 2, k) == Bit(w / 2, k)
      {
        assert Bit(v, k + 1) == Bit(w, k + 1);
      }
      SameBits(v / 2, w / 2, n - 1);
      assert Bit(v, 0) == Bit(w, 0);
    }
  }

  /** Masking with the n lowest bits is reducing modulo Pow2(n). */
  lemma MaskIsMod(w: uint64, n: nat)
    requires n <= 64
    ensures And(w, Mask(n)) == w % Pow2(n)
  {
    Pow2At64();
    assert w % Pow2(n) < Pow2(64) by { if n < 64 { Pow2Less(n, 64); } }
    forall k: nat {:trigger Bit(And(w, Mask(n)), k)} | k < 64
      ensures Bit(And(w, Mask(n)), k) == Bit(w % Pow2(n), k)
    {
      BitAnd(w, Mask(n), k);
      BitMask(n, k);
      BitMod(w, n, k);
    }
    SameBits(And(w, Mask(n)), w % Pow2(n), 64);
  }

  /** Or never leaves the word size of its arguments. */
  lemma {:induction false} OrBound(v: nat, w: nat, n: nat)
    requires v < Pow2(n) && w < Pow2(n)
    ensures Or(v, w) < Pow2(n)
    decreases v + w
  {
    if v > 0 && w > 0 { OrBound(v / 2, w / 2, n - 1); }
  }
}
