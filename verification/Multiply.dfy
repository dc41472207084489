/**
 * `__muldi3` and `__lmulq`: the three-product multiplication of section 4.3.3 of
 * The Art of Computer Programming, vol. 2, with every carry and borrow wrapped.
 */
module Multiply {
  import opened Words

  lemma HalfSplit(x: uint32)
    ensures x * B == HHalf(x) * W32 + LHup(x)
  {
    assert x == HHalf(x) * B + LHalf(x);
    WrapUp(x * B, HHalf(x), LHalf(x) * B);
  }

  lemma WrapUp(x: int, h: int, l: int)
    requires x == h * W32 + l && 0 <= l < W32
    ensures U32(x) == l
  {
  }

  lemma Wrap64(x: int, k: int, r: int)
    requires x == k * W64 + r && 0 <= r < W64
    ensures U64(x) == r
  {
  }

  // prod += x << N: one carry step.
  function CarryInto(h: uint32, l: uint32, x: uint32): (uint32, uint32) {
    var l' := U32(l + LHup(x));
    (U32(h + HHalf(x) + (if l' < l then 1 else 0)), l')
  }

  // prod -= x << N: one borrow step.
  function BorrowFrom(h: uint32, l: uint32, x: uint32): (uint32, uint32) {
    var l' := U32(l - LHup(x));
    (U32(h - (HHalf(x) + (if l' > l then 1 else 0))), l')
  }

  lemma CarryExact(h: uint32, l: uint32, x: uint32)
    ensures var p := CarryInto(h, l, x); Join(p.0, p.1) == U64(Join(h, l) + x * B)
  {
    hide U32, U64, HHalf, LHup;
    var p := CarryInto(h, l, x);
    HalfSplit(x);
    var c := if l + LHup(x) >= W32 then 1 else 0;
    WrapUp(l + LHup(x), c, l + LHup(x) - c * W32);
    var d := if h + HHalf(x) + c >= W32 then 1 else 0;
    WrapUp(h + HHalf(x) + c, d, h + HHalf(x) + c - d * W32);
    Wrap64(Join(h, l) + x * B, d, Join(p.0, p.1));
  }

  lemma BorrowExact(h: uint32, l: uint32, x: uint32)
    ensures var p := BorrowFrom(h, l, x); Join(p.0, p.1) == U64(Join(h, l) - x * B)
  {
    hide U32, U64, HHalf, LHup;
    var p := BorrowFrom(h, l, x);
    HalfSplit(x);
    var c := if l < LHup(x) then 1 else 0;
    WrapUp(l - LHup(x), -c, l - LHup(x) + c * W32);
    var d := if h < HHalf(x) + c then 1 else 0;
    WrapUp(h - (HHalf(x) + c), -d, h - (HHalf(x) + c) + d * W32);
    Wrap64(Join(h, l) - x * B, -d, Join(p.0, p.1));
  }

  // prod += low, the last step, which tests the sum against the addend.
  lemma LowExact(h: uint32, l: uint32, low: uint32)
    ensures var l' := U32(l + low);
            Join(if l' < low then U32(h + 1) else h, l') == U64(Join(h, l) + low)
  {
    hide U32, U64;
    var c := if l + low >= W32 then 1 else 0;
    WrapUp(l + low, c, l + low - c * W32);
    var d := if c == 1 && h == W32 - 1 then 1 else 0;
    WrapUp(h + 1, if h == W32 - 1 then 1 else 0, if h == W32 - 1 then 0 else h + 1);
    Wrap64(Join(h, l) + low, d, Join(if U32(l + low) < low then U32(h + 1) else h, U32(l + low)));
  }

  lemma WrapOnce(x: int, y: int)
    ensures U64(U64(x) + y) == U64(x + y)
  {
    var k, m := x / W64, (U64(x) + y) / W64;
    assert x == k * W64 + U64(x) && U64(x) + y == m * W64 + U64(U64(x) + y);
    assert (k + m) * W64 == k * W64 + m * W64;
    Wrap64(x + y, k + m, U64(U64(x) + y));
  }

  // The signed middle product (a1 - a0) * (b0 - b1), as magnitude and sign.
  function MidSign(a1: int, a0: int, b1: int, b0: int): bool {
    (a1 < a0) != (b0 < b1)
  }

  function Dist(a: int, b: int): (d: int)
    ensures d >= 0
  {
    if a >= b then a - b else b - a
  }

  lemma MidProduct(a1: int, a0: int, b1: int, b0: int)
    ensures var m := Dist(a1, a0) * Dist(b0, b1);
            (if MidSign(a1, a0, b1, b0) then -m else m) == a1 * b0 + a0 * b1 - a1 * b1 - a0 * b0
  {
    assert (a1 - a0) * (b0 - b1) == a1 * b0 + a0 * b1 - a1 * b1 - a0 * b0;
    assert (a0 - a1) * (b0 - b1) == -((a1 - a0) * (b0 - b1));
    assert (a1 - a0) * (b1 - b0) == -((a1 - a0) * (b0 - b1));
    assert (a0 - a1) * (b1 - b0) == (a1 - a0) * (b0 - b1);
  }

  lemma SplitProduct(u: int, v: int, W: int, u1: int, u0: int, v1: int, v0: int)
    requires u == u1 * W + u0 && v == v1 * W + v0
    ensures u * v == (u1 * v1) * (W * W) + (u1 * v0 + u0 * v1) * W + u0 * v0
  {
    assert (u1 * W + u0) * (v1 * W + v0) == (u1 * W) * (v1 * W) + (u1 * W) * v0 + u0 * (v1 * W) + u0 * v0;
    assert (u1 * W) * (v1 * W) == (u1 * v1) * (W * W);
    assert (u1 * v0 + u0 * v1) * W == (u1 * W) * v0 + u0 * (v1 * W);
  }

  /**
   * `__lmulq`: the exact 64-bit product of any two 32-bit words.
   */
  method LMulQ(u: uint32, v: uint32) returns (prod: uint64)
    ensures prod == u * v
  {
    hide U32, U64, HHalf;
    var u1: int, u0: int, v1: int, v0: int := HHalf(u), LHalf(u), HHalf(v), LHalf(v);
    NoOverflow(u0, v0);
    var low := U32(u0 * v0);
    if u1 == 0 && v1 == 0 {
      SmallFactors(u, v);
      return low;
    }
    var mid, neg := MidTerm(u1, u0, v1, v0);
    NoOverflow(u1, v1);
    var high := U32(u1 * v1);
    ThreeProducts(u, v, high, mid, neg, low);
    prod := Assemble(high, mid, neg, low);
  }

  ghost function ThreeSum(high: int, mid: int, neg: bool, low: int): int {
    high * W32 + high * B + (if neg then -(mid * B) else mid * B) + low * B + low
  }

  // The running two-word product with its carries and borrows.
  method Assemble(high: uint32, mid: uint32, neg: bool, low: uint32) returns (prod: uint64)
    ensures prod == U64(ThreeSum(high, mid, neg, low))
  {
    hide U32, U64, HHalf, LHup;
    var prodh, prodl := U32(high + HHalf(high)), LHup(high);
    FirstTerm(high);
    var was := prodl;
    if neg {
      BorrowExact(prodh, prodl, mid);
      prodl := U32(prodl - LHup(mid));
      prodh := U32(prodh - (HHalf(mid) + (if prodl > was then 1 else 0)));
    } else {
      CarryExact(prodh, prodl, mid);
      prodl := U32(prodl + LHup(mid));
      prodh := U32(prodh + HHalf(mid) + (if prodl < was then 1 else 0));
    }
    ghost var sum := high * W32 + high * B;
    WrapOnce(sum, if neg then -(mid * B) else mid * B);
    sum := sum + (if neg then -(mid * B) else mid * B);
    was := prodl;
    CarryExact(prodh, prodl, low);
    WrapOnce(sum, low * B);
    prodl := U32(prodl + LHup(low));
    prodh := U32(prodh + HHalf(low) + (if prodl < was then 1 else 0));
    LowExact(prodh, prodl, low);
    WrapOnce(sum + low * B, low);
    prodl := U32(prodl + low);
    if prodl < low {
      prodh := U32(prodh + 1);
    }
    return Join(prodh, prodl);
  }

  lemma SmallFactors(u: uint32, v: uint32)
    requires HHalf(u) == 0 && HHalf(v) == 0
    ensures LHalf(u) == u && LHalf(v) == v
  {
  }

  // The middle product: the distances of the halves, and whether it enters negatively.
  method MidTerm(u1: digit, u0: digit, v1: digit, v0: digit) returns (mid: uint32, neg: bool)
    ensures (if neg then 0 - mid else mid) == u1 * v0 + u0 * v1 - u1 * v1 - u0 * v0
  {
    var udiff: digit, vdiff: digit;
    if u1 >= u0 {
      udiff, neg := u1 - u0, false;
    } else {
      udiff, neg := u0 - u1, true;
    }
    if v0 >= v1 {
      vdiff := v0 - v1;
    } else {
      vdiff, neg := v1 - v0, !neg;
    }
    NoOverflow(udiff, vdiff);
    MidProduct(u1, u0, v1, v0);
    mid := U32(udiff * vdiff);
  }

  lemma FirstTerm(high: uint32)
    ensures Join(U32(high + HHalf(high)), LHup(high)) == U64(high * W32 + high * B)
  {
    hide U64, HHalf, LHup;
    CarryExact(high, 0, high);
    WrapUp(LHup(high), 0, LHup(high));
  }

  lemma ThreeProducts(u: uint32, v: uint32, high: int, mid: int, neg: bool, low: int)
    requires high == HHalf(u) * HHalf(v) && low == LHalf(u) * LHalf(v)
    requires (if neg then -mid else mid) == HHalf(u) * LHalf(v) + LHalf(u) * HHalf(v) - high - low
    ensures U64(ThreeSum(high, mid, neg, low)) == u * v
  {
    hide U64;
    SplitProduct(u, v, B, HHalf(u), LHalf(u), HHalf(v), LHalf(v));
    MulMono(0, u, v);
    MulMono(u, W32 - 1, v);
    Wrap64(u * v, 0, u * v);
  }

  lemma Congruent(x: int, y: int, k: int)
    requires x == y + k * W32
    ensures U32(x) == U32(y)
  {
    var m := y / W32;
    assert y == m * W32 + U32(y);
    assert (m + k) * W32 == m * W32 + k * W32;
    WrapUp(x, m + k, U32(y));
  }

  lemma Residue(x: int) returns (k: int)
    ensures x == U32(x) + k * W32
  {
    k := x / W32;
  }

  // (2^n)(high + mid + low) + low is the product modulo 2^(2n).
  lemma ModularProduct(u: uint64, v: uint64, low: uint64, high: uint32, mid: uint32, neg: bool)
    requires low == Low(u) * Low(v) && high == U32(High(u) * High(v))
    requires mid == U32(Dist(High(u), Low(u)) * Dist(Low(v), High(v)))
    requires neg == MidSign(High(u), Low(u), High(v), Low(v))
    ensures Join(U32(high + (if neg then U32(0 - mid) else mid) + Low(low) + High(low)), Low(low)) == U64(u * v)
  {
    hide U32, U64, MidSign, Dist;
    var u1: int, u0: int, v1: int, v0: int := High(u), Low(u), High(v), Low(v);
    SplitProduct(u, v, W32, u1, u0, v1, v0);
    MidProduct(u1, u0, v1, v0);
    var m := Dist(u1, u0) * Dist(v0, v1);
    var s := u1 * v0 + u0 * v1;
    var k1 := Residue(u1 * v1);
    var k2 := Residue(m);
    var k3 := Residue(0 - mid);
    var m' := if neg then U32(0 - mid) else mid;
    var k := if neg then k2 - k3 - k1 - High(low) else -k2 - k1 - High(low);
    assert high + m' + Low(low) + High(low) == s + High(low) + k * W32;
    Congruent(high + m' + Low(low) + High(low), s + High(low), k);
    FoldWords(u * v, u1 * v1, s, low);
  }

  lemma FoldWords(p: int, hh: int, s: int, low: uint64)
    requires p == hh * (W32 * W32) + s * W32 + low
    ensures Join(U32(s + High(low)), Low(low)) == U64(p)
  {
    hide U32, U64;
    var k := Residue(s + High(low));
    assert (hh + k) * W64 == hh * W64 + k * W64;
    Wrap64(p, hh + k, Join(U32(s + High(low)), Low(low)));
  }

  /**
   * `__muldi3`: the product of any two `long long`s, wrapped to 64 bits.
   */
  method MulDi3(a: int64, b: int64) returns (r: int64)
    ensures r == ToSigned(U64(a * b))
  {
    hide U32, U64, MidSign, Dist;
    NegationFits(a);
    NegationFits(b);
    var u: uint64, v: uint64, negall := U64(a), U64(b), false;
    if a < 0 {
      u, negall := U64(0 - a), true;
    }
    if b < 0 {
      v, negall := U64(0 - b), !negall;
    }
    ProductSign(a, b, u, v);
    var prod: int := UnsignedProduct(u, v);
    return ToSigned(if negall then U64(0 - prod) else prod);
  }

  // Negating in 64 bits gives the magnitude, that of the minimum value included.
  lemma NegationFits(a: int64)
    ensures if a < 0 then U64(0 - a) == 0 - a else U64(a) == a
  {
  }

  lemma ProductSign(a: int64, b: int64, u: uint64, v: uint64)
    requires u == (if a < 0 then 0 - a else a) && v == (if b < 0 then 0 - b else b)
    ensures U64(a * b) == if (a < 0) == (b < 0) then U64(u * v) else U64(0 - U64(u * v))
  {
    hide U64;
    var x: int := u * v;
    assert a * b == if (a < 0) == (b < 0) then x else 0 - x;
    NegateWrap(x);
  }

  lemma NegateWrap(x: int)
    ensures U64(0 - U64(x)) == U64(0 - x)
  {
    var k, m := x / W64, (0 - U64(x)) / W64;
    assert x == k * W64 + U64(x) && 0 - U64(x) == m * W64 + U64(0 - U64(x));
    assert (m - k) * W64 == m * W64 - k * W64;
    Wrap64(0 - x, m - k, U64(0 - U64(x)));
  }

  method UnsignedProduct(u: uint64, v: uint64) returns (prod: uint64)
    ensures prod == U64(u * v)
  {
    hide U32, U64;
    var u1: int, u0: int, v1: int, v0: int := High(u), Low(u), High(v), Low(v);
    if u1 == 0 && v1 == 0 {
      prod := LMulQ(u0, v0);
      Wrap64(prod, 0, prod);
      return;
    }
    var low := LMulQ(u0, v0);
    var udiff, vdiff, negmid := 0, 0, false;
    if u1 >= u0 {
      udiff := u1 - u0;
    } else {
      negmid, udiff := true, u0 - u1;
    }
    if v0 >= v1 {
      vdiff := v0 - v1;
    } else {
      vdiff, negmid := v1 - v0, !negmid;
    }
    var mid: int := U32(udiff * vdiff);
    var high := U32(u1 * v1);
    ModularProduct(u, v, low, high, mid, negmid);
    prod := Join(U32(high + (if negmid then U32(0 - mid) else mid) + Low(low) + High(low)), Low(low));
  }
}
