/** Numbers as strings of bits, the most significant first. */
module Bits {

  function Pow2(n: nat): (r: nat)
    ensures r > 0
  {
    if n == 0 then 1 else 2 * Pow2(n - 1)
  }

  lemma DivMod(x: nat, d: nat)
    requires d > 0
    ensures x / d >= 0 && 0 <= x % d < d && (x / d) * d + x % d == x
  {
  }

  // x >> m
  function Shr(x: nat, m: nat): nat {
    DivMod(x, Pow2(m));
    x / Pow2(m)
  }

  // x & ((1 << m) - 1)
  function Mask(x: nat, m: nat): (r: nat)
    ensures r < Pow2(m) && Shr(x, m) * Pow2(m) + r == x
  {
    DivMod(x, Pow2(m));
    x % Pow2(m)
  }

  // The `n` low bits of x.
  function BitsOf(x: nat, n: nat): (b: seq<nat>)
    ensures |b| == n && AreBits(b)
  {
    seq(n, i requires 0 <= i < n => Shr(x, n - 1 - i) % 2)
  }

  function Value(b: seq<nat>): nat {
    if b == [] then 0 else 2 * Value(b[..|b| - 1]) + b[|b| - 1]
  }

  ghost predicate AreBits(b: seq<nat>) {
    forall i :: 0 <= i < |b| ==> b[i] < 2
  }

  lemma MulLe(a: nat, b: nat, c: nat)
    requires a <= b
    ensures a * c <= b * c
  {
  }

  lemma DivUnique(x: nat, d: nat, q: nat, r: nat)
    requires d > 0 && x == q * d + r && r < d
    ensures x / d == q
  {
    DivMod(x, d);
    var q', r' := x / d, x % d;
    assert q * d - q' * d == r' - r;
    if q > q' {
      MulLe(q' + 1, q, d);
    } else if q < q' {
      MulLe(q + 1, q', d);
    }
  }

  lemma HalfThenShift(x: nat, m: nat)
    ensures Shr(x / 2, m) == Shr(x, m + 1)
  {
    var p := Pow2(m);
    var q, r := Shr(x, m + 1), Mask(x, m + 1);
    assert q * (2 * p) == 2 * (q * p);
    assert x / 2 == q * p + r / 2 && 0 <= r / 2 < p;
    DivUnique(x / 2, p, q, r / 2);
  }

  // The lowest bit and the rest.
  lemma LowestBit(x: nat, n: nat)
    ensures BitsOf(x, n + 1) == BitsOf(x / 2, n) + [x % 2]
  {
    forall i | 0 <= i < n ensures BitsOf(x, n + 1)[i] == BitsOf(x / 2, n)[i] {
      HalfThenShift(x, n - 1 - i);
    }
    assert Shr(x, 0) == x;
  }

  lemma {:induction false} ValueOfBits(x: nat, n: nat)
    requires x < Pow2(n)
    ensures Value(BitsOf(x, n)) == x
  {
    if n > 0 {
      LowestBit(x, n - 1);
      ValueOfBits(x / 2, n - 1);
      assert BitsOf(x, n)[..n - 1] == BitsOf(x / 2, n - 1);
    }
  }

  lemma {:induction false} BitsOfValue(b: seq<nat>)
    requires AreBits(b)
    ensures BitsOf(Value(b), |b|) == b && Value(b) < Pow2(|b|)
  {
    if b != [] {
      var init := b[..|b| - 1];
      BitsOfValue(init);
      LowestBit(Value(b), |init|);
      assert Value(b) / 2 == Value(init) && Value(b) % 2 == b[|b| - 1];
      assert b == init + [b[|b| - 1]];
    }
  }

  // Reducing a number keeps its bits exactly if it is below the modulus.
  lemma ReducedBits(bits: seq<nat>, n: nat, order: nat)
    requires AreBits(bits) && |bits| == n && 0 < order < Pow2(n)
    ensures BitsOf(Value(bits) % order, n) == bits <==> Value(bits) < order
  {
    ModIsSame(Value(bits), order);
    SmallerBits(bits, n, Value(bits) % order);
  }

  lemma ModIsSame(x: nat, d: nat)
    requires d > 0
    ensures 0 <= x % d < d && (x % d == x <==> x < d)
  {
    DivMod(x, d);
    if x < d {
      DivUnique(x, d, 0, x);
    }
  }

  lemma SmallerBits(bits: seq<nat>, n: nat, r: nat)
    requires AreBits(bits) && |bits| == n && r < Pow2(n)
    ensures BitsOf(r, n) == bits <==> r == Value(bits)
  {
    BitsOfValue(bits);
    ValueOfBits(r, n);
  }

  // Shifting y in from the right: (x << m) | y.
  lemma {:induction false} BitsConcat(x: nat, n: nat, y: nat, m: nat)
    requires y < Pow2(m)
    ensures x * Pow2(m) >= 0
    ensures BitsOf(x * Pow2(m) + y, n + m) == BitsOf(x, n) + BitsOf(y, m)
  {
    MulLe(0, x, Pow2(m));
    if m == 0 {
      assert BitsOf(x, n) + [] == BitsOf(x, n);
    } else {
      var p := Pow2(m - 1);
      assert x * Pow2(m) == 2 * (x * p);
      BitsConcat(x, n, y / 2, m - 1);
      LowestBit(x * Pow2(m) + y, n + m - 1);
      LowestBit(y, m - 1);
      assert (x * Pow2(m) + y) / 2 == x * p + y / 2;
      assert (x * Pow2(m) + y) % 2 == y % 2;
      assert BitsOf(x, n) + BitsOf(y, m) == (BitsOf(x, n) + BitsOf(y / 2, m - 1)) + [y % 2];
    }
  }

  // Taking the top bits out.
  lemma BitsSplit(x: nat, n: nat, m: nat)
    ensures BitsOf(x, n + m) == BitsOf(Shr(x, m), n) + BitsOf(Mask(x, m), m)
  {
    BitsConcat(Shr(x, m), n, Mask(x, m), m);
  }

  lemma {:induction false} PowSplits(n: nat, m: nat)
    ensures Pow2(n + m) == Pow2(n) * Pow2(m)
  {
    if m > 0 {
      PowSplits(n, m - 1);
    }
  }

  // What is left above the low m bits is small.
  lemma TopIsSmall(x: nat, n: nat, m: nat)
    requires x < Pow2(n + m)
    ensures Shr(x, m) < Pow2(n)
  {
    PowSplits(n, m);
    if Shr(x, m) >= Pow2(n) {
      MulLe(Pow2(n), Shr(x, m), Pow2(m));
    }
  }

  lemma ZeroBits(n: nat)
    ensures forall i :: 0 <= i < n ==> BitsOf(0, n)[i] == 0
  {
    forall i | 0 <= i < n ensures BitsOf(0, n)[i] == 0 {
      DivUnique(0, Pow2(n - 1 - i), 0, 0);
      assert Shr(0, n - 1 - i) == 0;
    }
  }

  /** `set_bit`: the bit at `index`, counted from the most significant of `len`, is or-ed in. */
  function SetBit(target: nat, len: nat, index: nat): nat
    requires index < len
  {
    if Shr(target, len - 1 - index) % 2 == 1 then target else target + Pow2(len - 1 - index)
  }

  lemma {:induction false} SetBitSetsBit(target: nat, len: nat, index: nat)
    requires index < len && target < Pow2(len)
    ensures BitsOf(SetBit(target, len, index), len) == BitsOf(target, len)[index := 1]
    ensures SetBit(target, len, index) < Pow2(len)
  {
    var set_ := SetBit(target, len, index);
    LowestBit(target, len - 1);
    LowestBit(set_, len - 1);
    if index == len - 1 {
      assert Shr(target, 0) == target;
      assert set_ / 2 == target / 2;
    } else {
      SetBitSetsBit(target / 2, len - 1, index);
      HalfThenShift(target, len - 2 - index);
      assert Pow2(len - 1 - index) == 2 * Pow2(len - 2 - index);
      assert set_ / 2 == SetBit(target / 2, len - 1, index);
      assert set_ % 2 == target % 2;
    }
  }
}
