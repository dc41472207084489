/**
 * `__divdi3` and `__moddi3`: signed division over `__qdivrem`.
 */
module SignedDivide {
  import opened Words
  import opened QDivRem

  datatype Signed = DivideTrap | Value(v: int64)

  const MIN: int := -0x8000_0000_0000_0000

  function Abs(x: int): (y: int)
    ensures y >= 0
  {
    if x < 0 then -x else x
  }

  // Section 6.5.5 of ISO C99: the algebraic quotient with any fractional part discarded.
  function TruncDiv(a: int, b: int): int
    requires b != 0
  {
    if (a < 0) == (b < 0) then Abs(a) / Abs(b) else -(Abs(a) / Abs(b))
  }

  function TruncRem(a: int, b: int): int
    requires b != 0
  {
    if a < 0 then -(Abs(a) % Abs(b)) else Abs(a) % Abs(b)
  }

  // a == q * b + r with r smaller than b in size and of the sign of a.
  ghost predicate Truncates(a: int, b: int, q: int, r: int) {
    a == q * b + r && Abs(r) < Abs(b) && (r != 0 ==> (r < 0 <==> a < 0))
  }

  lemma TruncSpec(a: int, b: int)
    requires b != 0
    ensures Truncates(a, b, TruncDiv(a, b), TruncRem(a, b))
  {
    var x, y := Abs(a), Abs(b);
    DivMod(x, y);
    SignedProducts(x / y, y);
  }

  lemma SignedProducts(q: int, y: int)
    ensures (-q) * (-y) == q * y && (-q) * y == -(q * y) && q * (-y) == -(q * y)
  {
  }

  // There is only one such quotient and remainder.
  lemma TruncUnique(a: int, b: int, q: int, r: int)
    requires b != 0 && Truncates(a, b, q, r)
    ensures q == TruncDiv(a, b) && r == TruncRem(a, b)
  {
    TruncSpec(a, b);
    SameQuotient(b, q, r, TruncDiv(a, b), TruncRem(a, b));
  }

  lemma SameQuotient(b: int, q: int, r: int, q': int, r': int)
    requires b != 0 && q * b + r == q' * b + r' && Abs(r - r') < Abs(b)
    ensures q == q' && r == r'
  {
    MulDist(q, q', b);
    var k, c := q - q', if b > 0 then b else -b;
    assert k * b == if b > 0 then k * c else -(k * c);
    if k > 0 {
      MulMono(1, k, c);
    } else if k < 0 {
      MulMono(k, -1, c);
    }
  }

  // The unsigned magnitude the C code computes by a wrapped negation.
  method Magnitude(a: int64) returns (u: uint64)
    ensures u == Abs(a)
  {
    u := U64(a);
    if a < 0 {
      u := U64(0 - u as int);
    }
  }

  /**
   * The quotient of two `long long`s.  It is the truncated quotient wrapped to 64 bits;
   * the only quotient the wrapping changes is MIN / -1.
   */
  method DivDi3(a: int64, b: int64) returns (r: Signed)
    ensures b == 0 ==> r == DivideTrap
    ensures b != 0 ==> r.Value? && r.v == ToSigned(U64(TruncDiv(a, b)))
    ensures b != 0 && (a != MIN || b != -1) ==> r == Value(TruncDiv(a, b))
    ensures a == MIN && b == -1 ==> r == Value(MIN)
  {
    hide U64;
    var ua := Magnitude(a);
    var ub := Magnitude(b);
    var neg := (a < 0) != (b < 0);
    var d := QDivRem.QDivRem(ua, ub, false);
    if d.Trap? {
      return DivideTrap;
    }
    var uq: int := d.quot;
    UnchangedWrap(uq);
    if neg {
      uq := U64(0 - uq);
    }
    QuotientFits(a, b);
    return Value(ToSigned(uq));
  }

  lemma UnchangedWrap(x: int)
    requires 0 <= x < W64
    ensures U64(x) == x
  {
  }

  lemma SignedWrap(x: int)
    requires MIN <= x <= 0 - MIN
    ensures ToSigned(U64(x)) == if x == 0 - MIN then MIN else x
  {
  }

  lemma QuotientFits(a: int64, b: int64)
    requires b != 0
    ensures MIN <= TruncDiv(a, b) <= 0 - MIN && (TruncDiv(a, b) == 0 - MIN <==> a == MIN && b == -1)
    ensures ToSigned(U64(TruncDiv(a, b))) == if a == MIN && b == -1 then MIN else TruncDiv(a, b)
  {
    hide U64;
    var x, y := Abs(a), Abs(b);
    var q := x / y;
    DivMod(x, y);
    QuotientBound(x, y, q);
    SignedWrap(TruncDiv(a, b));
  }

  lemma QuotientBound(x: int, y: int, q: int)
    requires 0 <= x && 0 < y && q * y <= x < q * y + y
    ensures 0 <= q <= x && (q == x && 0 < x ==> y == 1)
  {
    if q < 0 {
      MulMono(q, -1, y);
    } else {
      MulMono(1, y, q);
      if y >= 2 && q > 0 {
        MulMono(2, y, q);
      }
    }
  }

  /**
   * The remainder of two `long long`s; MIN % -1 is 0.
   */
  method ModDi3(a: int64, b: int64) returns (r: Signed)
    ensures b == 0 ==> r == DivideTrap
    ensures b != 0 ==> r == Value(TruncRem(a, b))
    ensures a == MIN && b == -1 ==> r == Value(0)
  {
    hide U64;
    var ua := Magnitude(a);
    var ub := Magnitude(b);
    var d := QDivRem.QDivRem(ua, ub, true);
    if d.Trap? {
      return DivideTrap;
    }
    var ur: int := d.rem.value;
    DivMod(Abs(a), Abs(b));
    UnchangedWrap(ur);
    SignedWrap(if a < 0 then 0 - ur else ur);
    if a < 0 {
      ur := U64(0 - ur);
    }
    return Value(ToSigned(ur));
  }
}
