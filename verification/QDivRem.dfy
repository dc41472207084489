/**
 * `__qdivrem`: Knuth's Algorithm D (The Art of Computer Programming, vol. 2,
 * section 4.3.1) on 16-bit digits held in five-element arrays.
 *
 * A C pointer into one of the arrays is the array and an offset: u[i] is
 * uspace[uo + i].
 */
module QDivRem {
  import opened Common
  import opened Words
  import opened Digits

  // `Trap` is the deliberate 1/0 the code executes when asked to divide by zero.
  datatype Outcome = Trap | Done(quot: uint64, rem: Option<uint64>)

  // ---------------------------------------------------------------- D3

  function TopThree(u0: digit, u1: digit, u2: digit): int {
    (u0 * B + u1) * B + u2
  }

  /**
   * D3.  The corrected estimate is exactly the quotient of the leading three digits of
   * the partial remainder by the leading two of the divisor, clipped to one digit.
   * The `goto qhat_too_big` enters the loop body once, before the test.
   */
  method EstimateDigit(u0: digit, u1: digit, u2: digit, v1: digit, v2: digit) returns (qhat: digit)
    requires u0 <= v1 && B / 2 <= v1
    ensures IsTrialDigit(qhat, TopThree(u0, u1, u2), v1 * B + v2)
  {
    hide Estimate, IsTrialDigit, NotTooSmall, TopThree, U32, Combine;
    var rhat: uint32, more := 0, true;
    if u0 == v1 {
      FirstTrial(u0, u1, u2, v1, v2);
      qhat := B - 1;
      rhat := u1 + v1;
      more := rhat < B;
    } else {
      var nn := Combine(u0, u1);
      DivideTwoByOne(u0, u1, u2, v1, v2);
      qhat := nn / v1;
      rhat := nn % v1;
    }
    while more && U32(v2 * qhat) > Combine(rhat, u2)
      invariant more == (rhat < B) && rhat < 2 * B
      invariant Estimate(qhat, rhat, u0, u1, u2, v1, v2)
      decreases 2 * B - rhat
    {
      TooBig(qhat, rhat, u0, u1, u2, v1, v2);
      qhat := qhat - 1;
      rhat := rhat + v1;
      more := rhat < B;
    }
    SmallEnough(qhat, rhat, u0, u1, u2, v1, v2);
  }

  // q is the quotient top / den, or B - 1 if that is smaller.
  ghost predicate IsTrialDigit(q: int, top: int, den: int) {
    q * den <= top && NotTooSmall(q, top, den)
  }

  ghost predicate NotTooSmall(q: int, top: int, den: int) {
    q == B - 1 || top < (q + 1) * den
  }

  ghost predicate Estimate(qhat: int, rhat: int, u0: digit, u1: digit, u2: digit, v1: digit, v2: digit) {
    qhat * v1 + rhat == u0 * B + u1 && NotTooSmall(qhat, TopThree(u0, u1, u2), v1 * B + v2)
  }

  lemma FirstTrial(u0: digit, u1: digit, u2: digit, v1: digit, v2: digit)
    requires u0 == v1
    ensures Estimate(B - 1, u1 + v1, u0, u1, u2, v1, v2)
  {
  }

  lemma DivideTwoByOne(u0: digit, u1: digit, u2: digit, v1: digit, v2: digit)
    requires u0 < v1
    ensures var nn := Combine(u0, u1);
            0 <= nn / v1 < B && 0 <= nn % v1 < B && Estimate(nn / v1, nn % v1, u0, u1, u2, v1, v2)
  {
    var nn := u0 * B + u1;
    SmallWord(u0 * B);
    var q := nn / v1;
    DivMod(nn, v1);
    if q >= B {
      MulMono(B, q, v1);
    }
    if q < 0 {
      MulMono(q, -1, v1);
    }
    MulDist(q, 1, v1);
    MulAssoc(q + 1, v1, B);
    MulDist(v1 * B, v2, q + 1);
    MulMono(0, v2, q + 1);
  }

  lemma TooBig(qhat: digit, rhat: int, u0: digit, u1: digit, u2: digit, v1: digit, v2: digit)
    requires Estimate(qhat, rhat, u0, u1, u2, v1, v2)
    requires 0 <= rhat < B && U32(v2 * qhat) > Combine(rhat, u2)
    ensures qhat > 0 && Estimate(qhat - 1, rhat + v1, u0, u1, u2, v1, v2)
  {
    NoOverflow(v2, qhat);
    SmallWord(rhat * B);
    MulDist(v1 * B, v2, qhat);
    MulAssoc(qhat, v1, B);
    MulDist(qhat, 1, v1);
  }

  lemma SmallEnough(qhat: digit, rhat: uint32, u0: digit, u1: digit, u2: digit, v1: digit, v2: digit)
    requires Estimate(qhat, rhat, u0, u1, u2, v1, v2)
    requires rhat >= B || U32(v2 * qhat) <= Combine(rhat, u2)
    ensures IsTrialDigit(qhat, TopThree(u0, u1, u2), v1 * B + v2)
  {
    NoOverflow(v2, qhat);
    if rhat < B {
      SmallWord(rhat * B);
    }
    MulDist(v1 * B, v2, qhat);
    MulAssoc(qhat, v1, B);
  }

  /**
   * Why one add-back is enough: whatever the length of the divisor, the trial digit is
   * the true quotient digit or exactly one more.
   */
  lemma TrialDigitOffByOne(us: seq<digit>, vs: seq<digit>, qhat: digit)
    requires |vs| >= 2 && |us| == |vs| + 1 && vs[0] >= 1
    requires Val(us) < B * Val(vs)
    requires IsTrialDigit(qhat, TopThree(us[0], us[1], us[2]), vs[0] * B + vs[1])
    ensures 0 < Val(vs) && Val(us) < (qhat + 1) * Val(vs) && qhat * Val(vs) < Val(us) + Val(vs)
    ensures qhat == Val(us) / Val(vs) || qhat == Val(us) / Val(vs) + 1
  {
    hide *;
    LeadingThree(us);
    LeadingTwo(vs);
    ValBound(us[3..]);
    ValBound(vs[2..]);
    OffByOne(TopThree(us[0], us[1], us[2]), Val(us[3..]), vs[0] * B + vs[1], Val(vs[2..]), Pow(|vs| - 2), qhat,
             Val(us), Val(vs));
  }

  lemma OffByOne(top: int, ur: int, den: int, vr: int, p: int, qhat: digit, U: int, V: int)
    requires 0 <= ur < p && 0 <= vr < p && den >= B && IsTrialDigit(qhat, top, den)
    requires U == top * p + ur && V == den * p + vr && U < B * V
    ensures 0 < V && U < (qhat + 1) * V && qhat * V < U + V
    ensures qhat == U / V || qhat == U / V + 1
  {
    MulMono(B, den, p);
    Bracket(top, ur, den, vr, p, qhat, U, V);
    QuotientBetween(U, V, qhat);
  }

  lemma Bracket(top: int, ur: int, den: int, vr: int, p: int, qhat: digit, U: int, V: int)
    requires 0 <= ur < p && 0 <= vr < p && den >= B && IsTrialDigit(qhat, top, den)
    requires U == top * p + ur && V == den * p + vr && U < B * V
    ensures U < (qhat + 1) * V && qhat * V < U + V
  {
    assert qhat * (den * p + vr) == (qhat * den) * p + qhat * vr;
    MulMono(qhat * den, top, p);
    MulMono(qhat, B - 1, vr);
    MulMono(B, den, p);
    if qhat < B - 1 {
      MulMono(top + 1, (qhat + 1) * den, p);
      assert (qhat + 1) * (den * p + vr) == ((qhat + 1) * den) * p + (qhat + 1) * vr;
      MulMono(0, vr, qhat + 1);
    }
  }

  lemma LeadingTwo(s: seq<digit>)
    requires |s| >= 2
    ensures Val(s) == (s[0] * B + s[1]) * Pow(|s| - 2) + Val(s[2..])
  {
    hide Val;
    ValHead(s);
    ValHead(s[1..]);
    assert s[1..][1..] == s[2..];
    MulAssoc(s[0], B, Pow(|s| - 2));
    MulDist(s[0] * B, s[1], Pow(|s| - 2));
  }

  lemma LeadingThree(s: seq<digit>)
    requires |s| >= 3
    ensures Val(s) == TopThree(s[0], s[1], s[2]) * Pow(|s| - 3) + Val(s[3..])
  {
    hide Val;
    LeadingTwo(s);
    ValHead(s[2..]);
    assert s[2..][1..] == s[3..];
    var a := s[0] * B + s[1];
    MulAssoc(a, B, Pow(|s| - 3));
    MulDist(a * B, s[2], Pow(|s| - 3));
  }

  lemma QuotientBetween(x: int, y: int, q: int)
    requires y > 0 && x < (q + 1) * y && q * y < x + y
    ensures q == x / y || q == x / y + 1
  {
    DivMod(x, y);
    var t := x / y;
    MulDist(q, 1, y);
    if q + 1 <= t {
      MulMono(q + 1, t, y);
    }
    if q >= t + 2 {
      MulMono(t + 2, q, y);
      MulDist(t, 2, y);
    }
  }

  // c is x shifted up by P with l added below.
  ghost predicate Shifted(c: int, x: int, P: int, l: int) {
    c == x * P + l
  }

  // ---------------------------------------------------------------- D4

  // Digit l of `now` is that of was - qhat * v with bs[l + 1] borrowed from it, and
  // borrows bs[l] from its left neighbour.
  ghost predicate Borrows(was: seq<digit>, v: seq<digit>, now: seq<digit>, qhat: digit, bs: seq<int>) {
    && |was| == |v| == |now| == |bs| - 1 && bs[|v|] == 0
    && forall l :: 0 <= l < |v| ==> now[l] - bs[l] * B == was[l] - v[l] * qhat - bs[l + 1]
  }

  /**
   * D4.  Subtract qhat times the divisor from u[k..k+n].  The borrow word t is exact
   * at every digit; the result is negative exactly when the last HHALF(t) is nonzero.
   */
  method MultiplySubtract(u: array<digit>, k: nat, v: array<digit>, vo: nat, n: nat, qhat: digit)
    returns (negative: bool)
    requires u != v && k + n < u.Length && vo + n < v.Length
    modifies u
    ensures forall i :: 0 <= i < u.Length && !(k <= i <= k + n) ==> u[i] == old(u[i])
    ensures Val(u[k..k + 1 + n])
         == old(Val(u[k..k + 1 + n])) - qhat * Val(v[vo + 1..vo + 1 + n]) + (if negative then Pow(n + 1) else 0)
    ensures negative <==> old(Val(u[k..k + 1 + n])) < qhat * Val(v[vo + 1..vo + 1 + n])
  {
    hide *;
    ghost var was := u[k..k + 1 + n];
    var t, bs := SubtractDigits(u, k, v, vo, n, qhat);
    ghost var tail := u[k + 1..k + 1 + n];
    assert was[1..] == old(u[k + 1..k + 1 + n]);
    LastBorrow(was, v[vo + 1..vo + 1 + n], tail, qhat, bs);
    t := U32(u[k] - t);
    u[k] := LHalf(t);
    negative := HHalf(t) != 0;
    assert u[k..k + 1 + n] == [u[k]] + tail;
  }

  method SubtractDigits(u: array<digit>, k: nat, v: array<digit>, vo: nat, n: nat, qhat: digit)
    returns (t: uint32, ghost bs: seq<int>)
    requires u != v && k + n < u.Length && vo + n < v.Length
    modifies u
    ensures forall i :: 0 <= i < u.Length && !(k < i <= k + n) ==> u[i] == old(u[i])
    ensures Borrows(old(u[k + 1..k + 1 + n]), v[vo + 1..vo + 1 + n], u[k + 1..k + 1 + n], qhat, bs)
    ensures 0 <= t == bs[0] < B
  {
    t := 0;
    bs := seq(n + 1, l => 0);
    var i := n;
    while i > 0
      invariant 0 <= i <= n && |bs| == n + 1 && 0 <= t == bs[i] < B && bs[n] == 0
      invariant forall l :: 0 <= l < u.Length && !(k + i < l <= k + n) ==> u[l] == old(u[l])
      invariant forall l :: i <= l < n ==>
                  u[k + 1 + l] - bs[l] * B == old(u[k + 1 + l]) - v[vo + 1 + l] * qhat - bs[l + 1]
    {
      t := BorrowDigit(u[k + i], v[vo + i], qhat, t);
      u[k + i] := LHalf(t);
      t := (B - HHalf(t)) % B;
      i := i - 1;
      bs := bs[i := t];
    }
  }

  // One digit of D4: no product overflows, and the wrapped word splits into the new
  // digit and the exact borrow.
  method BorrowDigit(u: digit, v: digit, qhat: digit, t: uint32) returns (x: uint32)
    requires t < B
    ensures LHalf(x) - ((B - HHalf(x)) % B) * B == u - v * qhat - t
  {
    NoOverflow(v, qhat);
    x := U32(u - U32(v * qhat) - t);
    BorrowExact(u, v * qhat, t, x);
  }

  lemma BorrowExact(u: digit, p: int, t: int, x: uint32)
    requires 0 <= p <= (B - 1) * (B - 1) && 0 <= t < B && x == U32(u - p - t)
    ensures LHalf(x) - ((B - HHalf(x)) % B) * B == u - p - t
  {
  }

  lemma {:induction false} BorrowedValue(was: seq<digit>, v: seq<digit>, now: seq<digit>, qhat: digit, bs: seq<int>)
    requires Borrows(was, v, now, qhat, bs)
    ensures Val(was) - qhat * Val(v) == Val(now) - bs[0] * Pow(|v|)
  {
    if v != [] {
      BorrowedValue(was[1..], v[1..], now[1..], qhat, bs[1..]);
      ValHead(was);
      ValHead(v);
      ValHead(now);
      SubtractDigitValue(was[0], v[0], now[0], qhat, bs[1], bs[0], Pow(|v| - 1), Pow(|v|),
                         Val(was[1..]), Val(v[1..]), Val(now[1..]), Val(was), Val(v), Val(now));
    }
  }

  lemma SubtractDigitValue(w: int, v: int, n: int, q: int, b: int, t: int, P: int, P': int,
                           A: int, C: int, R: int, A': int, C': int, R': int)
    requires A - q * C == R - b * P && n - t * B == w - v * q - b
    requires A' == w * P + A && C' == v * P + C && R' == n * P + R && P' == B * P
    ensures A' - q * C' == R' - t * P'
  {
    assert q * (v * P + C) == (v * q) * P + q * C;
    assert (n - t * B) * P == n * P - t * (B * P);
    assert (w - v * q - b) * P == w * P - (v * q) * P - b * P;
  }

  // The last digit of D4, where the divisor has no digit.
  lemma LastBorrow(was: seq<digit>, v: seq<digit>, tail: seq<digit>, qhat: digit, bs: seq<int>)
    requires |was| == |v| + 1 && Borrows(was[1..], v, tail, qhat, bs) && 0 <= bs[0] < B
    ensures var x := U32(was[0] - bs[0]);
            var neg := HHalf(x) != 0;
            && Val([LHalf(x)] + tail) == Val(was) - qhat * Val(v) + (if neg then Pow(|v| + 1) else 0)
            && (neg <==> Val(was) < qhat * Val(v))
  {
    var x := U32(was[0] - bs[0]);
    var now := [LHalf(x)] + tail;
    assert now[1..] == tail;
    ValHead(now);
    ValHead(was);
    BorrowedValue(was[1..], v, tail, qhat, bs);
    LastBorrowValue(was[0], bs[0], Pow(|v|));
    ValBound(now);
  }

  lemma LastBorrowValue(u: digit, t: int, P: int)
    requires 0 <= t < B && P >= 1
    ensures var x := U32(u - t);
            LHalf(x) * P == u * P - t * P + (if HHalf(x) != 0 then B * P else 0)
  {
    var x := U32(u - t);
    assert LHalf(x) == u - t + (if HHalf(x) != 0 then B else 0);
    assert (u - t) * P == u * P - t * P;
    assert (u - t + B) * P == u * P - t * P + B * P;
  }

  // ---------------------------------------------------------------- D6

  /**
   * D6.  Add the divisor back into u[k..k+n], dropping the carry out of the last digit.
   */
  method AddBack(u: array<digit>, k: nat, v: array<digit>, vo: nat, n: nat)
    requires u != v && k + n < u.Length && vo + n < v.Length
    modifies u
    ensures forall i :: 0 <= i < u.Length && !(k <= i <= k + n) ==> u[i] == old(u[i])
    ensures Val(u[k..k + 1 + n]) == (old(Val(u[k..k + 1 + n])) + Val(v[vo + 1..vo + 1 + n])) % Pow(n + 1)
  {
    hide *;
    ghost var was := u[k..k + 1 + n];
    var t, cs := AddDigits(u, k, v, vo, n);
    ghost var tail := u[k + 1..k + 1 + n];
    assert was[1..] == old(u[k + 1..k + 1 + n]);
    LastCarry(was, v[vo + 1..vo + 1 + n], tail, cs);
    u[k] := LHalf(u[k] + t);
    assert u[k..k + 1 + n] == [u[k]] + tail;
  }

  method AddDigits(u: array<digit>, k: nat, v: array<digit>, vo: nat, n: nat) returns (t: uint32, ghost cs: seq<int>)
    requires u != v && k + n < u.Length && vo + n < v.Length
    modifies u
    ensures forall i :: 0 <= i < u.Length && !(k < i <= k + n) ==> u[i] == old(u[i])
    ensures Carries(old(u[k + 1..k + 1 + n]), v[vo + 1..vo + 1 + n], u[k + 1..k + 1 + n], cs)
    ensures 0 <= t == cs[0] <= 1
  {
    t := 0;
    cs := seq(n + 1, l => 0);
    var i := n;
    while i > 0
      invariant 0 <= i <= n && |cs| == n + 1 && 0 <= t == cs[i] <= 1 && cs[n] == 0
      invariant forall l :: 0 <= l < u.Length && !(k + i < l <= k + n) ==> u[l] == old(u[l])
      invariant forall l :: i <= l < n ==>
                  u[k + 1 + l] + cs[l] * B == old(u[k + 1 + l]) + v[vo + 1 + l] + cs[l + 1]
    {
      t := t + u[k + i] + v[vo + i];
      u[k + i] := LHalf(t);
      t := HHalf(t);
      i := i - 1;
      cs := cs[i := t];
    }
  }

  ghost predicate Carries(was: seq<digit>, v: seq<digit>, now: seq<digit>, cs: seq<int>) {
    && |was| == |v| == |now| == |cs| - 1 && cs[|v|] == 0
    && forall l :: 0 <= l < |v| ==> now[l] + cs[l] * B == was[l] + v[l] + cs[l + 1]
  }

  lemma {:induction false} CarriedValue(was: seq<digit>, v: seq<digit>, now: seq<digit>, cs: seq<int>)
    requires Carries(was, v, now, cs)
    ensures Val(was) + Val(v) == Val(now) + cs[0] * Pow(|v|)
  {
    if v != [] {
      CarriedValue(was[1..], v[1..], now[1..], cs[1..]);
      ValHead(was);
      ValHead(v);
      ValHead(now);
      AddDigitValue(was[0], v[0], now[0], cs[1], cs[0], Pow(|v| - 1), Pow(|v|),
                    Val(was[1..]), Val(v[1..]), Val(now[1..]), Val(was), Val(v), Val(now));
    }
  }

  lemma AddDigitValue(w: int, v: int, n: int, c: int, t: int, P: int, P': int,
                      A: int, C: int, R: int, A': int, C': int, R': int)
    requires A + C == R + c * P && n + t * B == w + v + c
    requires A' == w * P + A && C' == v * P + C && R' == n * P + R && P' == B * P
    ensures A' + C' == R' + t * P'
  {
    assert (n + t * B) * P == n * P + t * (B * P);
    assert (w + v + c) * P == w * P + v * P + c * P;
  }

  lemma LastCarry(was: seq<digit>, v: seq<digit>, tail: seq<digit>, cs: seq<int>)
    requires |was| == |v| + 1 && Carries(was[1..], v, tail, cs) && 0 <= cs[0] <= 1
    ensures Val([LHalf(was[0] + cs[0])] + tail) == (Val(was) + Val(v)) % Pow(|v| + 1)
  {
    var now := [LHalf(was[0] + cs[0])] + tail;
    assert now[1..] == tail;
    ValHead(now);
    ValHead(was);
    CarriedValue(was[1..], v, tail, cs);
    var over := if was[0] + cs[0] >= B then 1 else 0;
    LastCarryValue(was[0], cs[0], over, Pow(|v|), Pow(|v| + 1), Val(was[1..]), Val(v), Val(tail), Val(was), Val(now));
    ValBound(now);
    DivModUnique(Val(was) + Val(v), Pow(|v| + 1), over, Val(now));
  }

  lemma LastCarryValue(w: digit, c: int, over: int, P: int, P': int, A: int, V: int, R: int, A': int, R': int)
    requires 0 <= c <= 1 && over == (if w + c >= B then 1 else 0)
    requires A + V == R + c * P && A' == w * P + A && R' == LHalf(w + c) * P + R && P' == B * P
    ensures A' + V == over * P' + R'
  {
    assert LHalf(w + c) == w + c - over * B;
    assert (w + c - over * B) * P == w * P + c * P - over * (B * P);
  }

  // ---------------------------------------------------------------- one quotient digit

  /**
   * D3 to D6: one turn of the main loop divides the partial remainder u[k..k+n] by the
   * divisor, leaving the true quotient digit and the true remainder.
   */
  method DivideStep(u: array<digit>, k: nat, v: array<digit>, vo: nat, n: nat) returns (qj: digit)
    requires u != v && n >= 2 && k + n < u.Length && vo + n < v.Length
    requires B / 2 <= v[vo + 1] && Val(u[k..k + 1 + n]) < B * Val(v[vo + 1..vo + 1 + n])
    modifies u
    ensures forall i :: 0 <= i < u.Length && !(k <= i <= k + n) ==> u[i] == old(u[i])
    ensures Divides(old(Val(u[k..k + 1 + n])), Val(v[vo + 1..vo + 1 + n]), qj, Val(u[k..k + 1 + n]))
  {
    hide Val, IsTrialDigit, TopThree, Divides;
    ghost var us, vs := u[k..k + 1 + n], v[vo + 1..vo + 1 + n];
    FirstDigitFits(us, vs);
    ValBound(vs);
    var qhat := EstimateDigit(u[k], u[k + 1], u[k + 2], v[vo + 1], v[vo + 2]);
    TrialDigitOffByOne(us, vs, qhat);
    var negative := MultiplySubtract(u, k, v, vo, n, qhat);
    ghost var mid := Val(u[k..k + 1 + n]);
    if negative {
      qhat := qhat - 1;
      AddBack(u, k, v, vo, n);
    }
    qj := qhat;
    StepValue(Val(us), Val(vs), if negative then qj + 1 else qj, negative, Pow(n + 1), mid, Val(u[k..k + 1 + n]));
  }

  lemma FirstDigitFits(us: seq<digit>, vs: seq<digit>)
    requires |vs| >= 1 && |us| == |vs| + 1 && Val(us) < B * Val(vs)
    ensures us[0] <= vs[0]
  {
    ValHead(us);
    ValHead(vs);
    ValBound(vs[1..]);
    FirstDigitValue(us[0], vs[0], Pow(|vs| - 1), Val(us[1..]), Val(vs[1..]), Val(us), Val(vs), Pow(|vs|));
  }

  lemma FirstDigitValue(u: int, v: int, P: int, ur: int, vr: int, U: int, V: int, P': int)
    requires P >= 1 && ur >= 0 && vr < P && P' == B * P
    requires U == u * P' + ur && V == v * P + vr && U < B * V
    ensures u <= v
  {
    assert (v + 1) * P' == B * (v * P + P);
    if u > v {
      MulMono(v + 1, u, P');
    }
  }

  lemma StepValue(U: int, V: int, q: int, negative: bool, P: int, mid: int, now: int)
    requires 0 <= U && 0 < V < P && U < (q + 1) * V && q * V < U + V
    requires negative <==> U < q * V
    requires mid == U - q * V + (if negative then P else 0)
    requires now == if negative then (mid + V) % P else mid
    ensures Divides(U, V, if negative then q - 1 else q, now) && (negative ==> q > 0)
  {
    MulDist(q, 1, V);
    if negative {
      DivModUnique(mid + V, P, 1, U - q * V + V);
      if q <= 0 {
        MulMono(q, 0, V);
      }
    }
  }

  // ---------------------------------------------------------------- D1: normalising shifts

  function Pow2(k: nat): (p: int)
    ensures p >= 1
  {
    if k == 0 then 1 else 2 * Pow2(k - 1)
  }

  lemma {:induction false} Pow2Add(a: nat, b: nat)
    ensures Pow2(a + b) == Pow2(a) * Pow2(b)
  {
    if a > 0 {
      Pow2Add(a - 1, b);
      MulAssoc(2, Pow2(a - 1), Pow2(b));
    }
  }

  lemma ShiftPair(sh: nat)
    requires sh <= 16
    ensures Pow2(sh) * Pow2(16 - sh) == B
  {
    Pow2Add(sh, 16 - sh);
    assert Pow2(4) == 16;
    Pow2Add(4, 4);
    Pow2Add(8, 8);
  }

  /**
   * shl(&p[o], len, sh): shift p[o..o+len] left in place, reading each right neighbour
   * before it changes.  No bit is lost exactly when the leading digit is below 2^(16-sh).
   */
  method Shl(p: array<digit>, o: nat, len: nat, sh: nat)
    requires o + len < p.Length && 1 <= sh <= 15
    modifies p
    ensures forall i :: 0 <= i < p.Length && !(o <= i <= o + len) ==> p[i] == old(p[i])
    ensures Val(p[o..o + 1 + len]) == (Pow2(sh) * old(Val(p[o..o + 1 + len]))) % Pow(len + 1)
    ensures old(p[o]) < Pow2(16 - sh) ==> Shifted(Val(p[o..o + 1 + len]), old(Val(p[o..o + 1 + len])), Pow2(sh), 0)
  {
    hide Val, Pow, Pow2, U32, Shifted;
    ShiftPair(sh);
    ghost var was, S, T := p[o..o + 1 + len], Pow2(sh), Pow2(16 - sh);
    var i := 0;
    while i < len
      invariant 0 <= i <= len
      invariant forall l :: 0 <= l < p.Length && !(o <= l < o + i) ==> p[l] == old(p[l])
      invariant forall l :: 0 <= l < i ==> p[o + l] == Stays(was[l], S, T) + Moves(was[l + 1], T)
    {
      ShiftDigit(p[o + i], S, T);
      ShiftDigit(p[o + i + 1], S, T);
      p[o + i] := LHalf(U32(p[o + i] * Pow2(sh))) + p[o + i + 1] / Pow2(16 - sh);
      i := i + 1;
    }
    ShiftDigit(p[o + i], S, T);
    p[o + i] := LHalf(U32(p[o + i] * Pow2(sh)));
    ShiftedLeft(was, p[o..o + 1 + len], S, T);
    ShiftLeftModulo(was, p[o..o + 1 + len], S, T);
  }

  // A digit shifted left by S = B / T: what stays in its place, and what moves left.
  ghost function Stays(a: digit, S: int, T: int): int
    requires T >= 1
  {
    (a % T) * S
  }

  ghost function Moves(a: digit, T: int): int
    requires T >= 1
  {
    a / T
  }

  lemma ShiftDigit(a: digit, S: int, T: int)
    requires S >= 1 && T >= 1 && S * T == B
    ensures a * S == Moves(a, T) * B + Stays(a, S, T)
    ensures 0 <= Stays(a, S, T) <= B - S && 0 <= Moves(a, T) < S
    ensures LHalf(U32(a * S)) == Stays(a, S, T)
  {
    DivMod(a, T);
    var h, l := a / T, a % T;
    assert (h * T + l) * S == h * (S * T) + l * S;
    MulMono(l, T - 1, S);
    MulDist(T, 1, S);
    MulMono(0, l, S);
    if h >= S {
      MulMono(S, h, T);
    }
    if h < 0 {
      MulMono(h, -1, T);
    }
    WrapSplit(a * S, h, l * S);
  }

  lemma WrapSplit(x: int, h: int, l: int)
    requires x == h * B + l && 0 <= h < B && 0 <= l < B
    ensures LHalf(U32(x)) == l
  {
  }

  ghost predicate IsShiftLeft(was: seq<digit>, now: seq<digit>, S: int, T: int)
    requires T >= 1
  {
    && |was| == |now|
    && forall l {:trigger now[l]} :: 0 <= l < |was| ==>
         now[l] == Stays(was[l], S, T) + (if l + 1 < |was| then Moves(was[l + 1], T) else 0)
  }

  lemma {:induction false} ShiftedLeft(was: seq<digit>, now: seq<digit>, S: int, T: int)
    requires S >= 1 && T >= 1 && S * T == B && IsShiftLeft(was, now, S, T)
    ensures S * Val(was) == Val(now) + (if was == [] then 0 else Moves(was[0], T) * Pow(|was|))
  {
    if was != [] {
      assert forall l :: 0 <= l < |was| - 1 ==> now[1..][l] == now[l + 1];
      ShiftedLeft(was[1..], now[1..], S, T);
      ValHead(was);
      ValHead(now);
      ShiftDigit(was[0], S, T);
      var c := if |was| > 1 then Moves(was[1], T) else 0;
      ShiftLeftValue(was[0], Moves(was[0], T), Stays(was[0], S, T), c, now[0], S, Pow(|was| - 1), Pow(|was|),
                     Val(was[1..]), Val(now[1..]), Val(was), Val(now));
    }
  }

  lemma ShiftLeftValue(a: int, h: int, lo: int, c: int, n: int, S: int, P: int, P': int,
                       A: int, R: int, A': int, R': int)
    requires a * S == h * B + lo && n == lo + c && S * A == R + c * P
    requires A' == a * P + A && R' == n * P + R && P' == B * P
    ensures S * A' == R' + h * P'
  {
    assert S * (a * P + A) == (a * S) * P + S * A;
    assert (h * B + lo) * P == h * (B * P) + lo * P;
    assert (lo + c) * P == lo * P + c * P;
  }

  lemma ShiftLeftModulo(was: seq<digit>, now: seq<digit>, S: int, T: int)
    requires was != [] && S >= 1 && T >= 1 && S * T == B && IsShiftLeft(was, now, S, T)
    ensures Val(now) == (S * Val(was)) % Pow(|was|)
    ensures was[0] < T ==> Shifted(Val(now), Val(was), S, 0)
  {
    hide Val, Pow;
    ShiftedLeft(was, now, S, T);
    ValBound(now);
    DivModUnique(S * Val(was), Pow(|was|), Moves(was[0], T), Val(now));
    if was[0] < T {
      DivModUnique(was[0], T, 0, was[0]);
    }
  }

  // ---------------------------------------------------------------- the remainder's shift back

  /**
   * The denormalising loop: u[k..k+n] >> d in place, from the right, when u[k] is zero.
   */
  method ShiftBack(u: array<digit>, k: nat, n: nat, d: nat)
    requires k + n < u.Length && 1 <= d <= 15 && u[k] == 0
    modifies u
    ensures forall i :: 0 <= i < u.Length && !(k < i <= k + n) ==> u[i] == old(u[i])
    ensures Val(u[k + 1..k + 1 + n]) == old(Val(u[k + 1..k + 1 + n])) / Pow2(d)
  {
    hide Val, Pow, Pow2, U32;
    ShiftPair(d);
    ghost var was, S, T := u[k..k + 1 + n], Pow2(d), Pow2(16 - d);
    var i := n;
    while i > 0
      invariant 0 <= i <= n
      invariant forall l :: 0 <= l < u.Length && !(k + i < l <= k + n) ==> u[l] == old(u[l])
      invariant forall l :: i < l <= n ==> u[k + l] == Moves(was[l], S) + Stays(was[l - 1], T, S)
    {
      ShiftDigit(u[k + i], T, S);
      ShiftDigit(u[k + i - 1], T, S);
      u[k + i] := u[k + i] / Pow2(d) + LHalf(U32(u[k + i - 1] * Pow2(16 - d)));
      i := i - 1;
    }
    u[k] := 0;
    ghost var now := u[k + 1..k + 1 + n];
    assert was[1..] == old(u[k + 1..k + 1 + n]);
    assert forall l :: 0 <= l < n ==> now[l] == u[k + (l + 1)];
    ShiftedRightQuotient(was, now, S, T);
  }

  lemma ShiftedRightQuotient(was: seq<digit>, now: seq<digit>, S: int, T: int)
    requires S >= 1 && T >= 1 && S * T == B && IsShiftRight(was, now, S, T) && was[0] == 0
    ensures Val(now) == Val(was[1..]) / S
  {
    hide Val, Pow;
    ShiftedRight(was, now, S, T);
    QuotientOf(Val(was[1..]), S, Val(now), was[|now|] % S, Pow(|now|));
  }

  ghost predicate IsShiftRight(was: seq<digit>, now: seq<digit>, S: int, T: int)
    requires S >= 1
  {
    && |was| == |now| + 1
    && forall l {:trigger now[l]} :: 0 <= l < |now| ==> now[l] == Moves(was[l + 1], S) + Stays(was[l], T, S)
  }

  lemma {:induction false} ShiftedRight(was: seq<digit>, now: seq<digit>, S: int, T: int)
    requires S >= 1 && T >= 1 && S * T == B && IsShiftRight(was, now, S, T)
    ensures (was[0] % S) * Pow(|now|) + Val(was[1..]) == S * Val(now) + was[|now|] % S
  {
    if now != [] {
      assert forall l :: 0 <= l < |now| - 1 ==> now[1..][l] == now[l + 1];
      ShiftedRight(was[1..], now[1..], S, T);
      ValHead(was[1..]);
      ValHead(now);
      DivMod(was[1], S);
      ShiftRightValue(was[0] % S, was[1], was[1] / S, was[1] % S, now[0], S, T, Pow(|now| - 1), Pow(|now|),
                      Val(was[1..][1..]), Val(now[1..]), Val(was[1..]), Val(now), was[|now|] % S);
    }
  }

  lemma ShiftRightValue(c: int, a: int, h: int, l: int, n: int, S: int, T: int, P: int, P': int,
                        A: int, R: int, A': int, R': int, r: int)
    requires a == h * S + l && n == h + c * T && l * P + A == S * R + r && S * T == B
    requires A' == a * P + A && R' == n * P + R && P' == B * P
    ensures c * P' + A' == S * R' + r
  {
    assert S * (n * P + R) == (S * n) * P + S * R;
    assert S * (h + c * T) == h * S + c * (S * T);
    assert (a - l + c * B) * P == a * P - l * P + c * (B * P);
  }

  lemma QuotientOf(x: int, S: int, q: int, r: int, P: int)
    requires 0 <= r < S && (0 % S) * P + x == S * q + r
    ensures q == x / S
  {
    DivModUnique(0, S, 0, 0);
    DivModUnique(x, S, q, r);
  }

  // ---------------------------------------------------------------- D2, D7: the loop on j

  /**
   * Long division: after j digits the quotient so far and the digits u[j..j+n-1] divide
   * the leading j + n digits of the dividend, and the next digit is brought down.
   */
  method DivideLoop(u: array<digit>, uo: nat, v: array<digit>, vo: nat, q: array<digit>, qo: nat, n: nat, m: nat)
    requires u.Length == v.Length == q.Length == 5 && u != v && u != q && v != q
    requires n >= 2 && uo + m + n == 4 && vo + n == 4 && qo + m == 4
    requires B / 2 <= v[vo + 1] && Val(u[uo..uo + n]) < Val(v[vo + 1..5])
    modifies u, q
    ensures forall i :: 0 <= i < uo ==> u[i] == old(u[i])
    ensures forall i :: uo <= i <= uo + m ==> u[i] == 0
    ensures forall i :: 0 <= i < qo ==> q[i] == old(q[i])
    ensures Divides(old(Val(u[uo..5])), Val(v[vo + 1..5]), Val(q[qo..5]), Val(u[uo + m + 1..5]))
  {
    hide Val, Divides;
    ghost var was, V := u[..], Val(v[vo + 1..5]);
    var j := 0;
    Start(Val(u[uo..uo + n]), V);
    assert q[qo..qo] == [] && u[uo..uo + n] == was[uo..uo + n];
    while j <= m
      invariant 0 <= j <= m + 1
      invariant Reached(was, u[..], uo, n, j)
      invariant forall i :: 0 <= i < qo ==> q[i] == old(q[i])
      invariant Divides(Val(was[uo..uo + j + n]), V, Val(q[qo..qo + j]), Val(u[uo + j..uo + j + n]))
    {
      NextQuotientDigit(was, u, uo, v, vo, q, qo, n, j);
      j := j + 1;
    }
    assert q[qo..qo + (m + 1)] == q[qo..5] && was[uo..uo + (m + 1) + n] == old(u[uo..5]);
  }

  // The dividend after j digits: the digits passed are 0, the ones to come are untouched.
  ghost predicate Reached(was: seq<digit>, u: seq<digit>, uo: nat, n: nat, j: nat) {
    && |was| == |u| == 5
    && (forall i :: 0 <= i < uo && i < 5 ==> u[i] == was[i])
    && (forall i :: uo <= i < uo + j && i < 5 ==> u[i] == 0)
    && (forall i :: uo + j + n <= i < 5 ==> u[i] == was[i])
  }

  // One round of the loop D2 to D7.
  method NextQuotientDigit(ghost was: seq<digit>, u: array<digit>, uo: nat, v: array<digit>, vo: nat, q: array<digit>,
                           qo: nat, n: nat, j: nat)
    requires u.Length == v.Length == q.Length == 5 && u != v && u != q && v != q
    requires n >= 2 && uo + j + n <= 4 && vo + n == 4 && qo + j <= 4 && B / 2 <= v[vo + 1]
    requires Reached(was, u[..], uo, n, j)
    requires Divides(Val(was[uo..uo + j + n]), Val(v[vo + 1..5]), Val(q[qo..qo + j]), Val(u[uo + j..uo + j + n]))
    modifies u, q
    ensures Reached(was, u[..], uo, n, j + 1) && forall i :: 0 <= i < qo ==> q[i] == old(q[i])
    ensures Divides(Val(was[uo..uo + (j + 1) + n]), Val(v[vo + 1..5]), Val(q[qo..qo + (j + 1)]),
      Val(u[uo + (j + 1)..uo + (j + 1) + n]))
  {
    hide Val, Divides;
    var k := uo + j;
    ghost var head, cur, d, done := was[uo..k + n], u[k..k + n], u[k + n], q[qo..qo + j];
    BringDown(Val(head), Val(v[vo + 1..5]), Val(done), cur, d);
    assert u[k..k + 1 + n] == cur + [d] && v[vo + 1..vo + 1 + n] == v[vo + 1..5];
    var qj := DivideStep(u, k, v, vo, n);
    NextDigit(head, d, cur, u[k..k + 1 + n], v[vo + 1..5], done, qj);
    q[qo + j] := qj;
    assert q[qo..qo + j + 1] == done + [qj] && was[uo..k + n + 1] == head + [d];
    assert u[k..k + 1 + n][1..] == u[k + 1..k + 1 + n];
  }

  lemma Start(x: int, V: int)
    requires 0 <= x < V
    ensures Divides(x, V, Val([]), x)
  {
  }

  lemma BringDown(h: int, V: int, Q: int, cur: seq<digit>, d: digit)
    requires Divides(h, V, Q, Val(cur))
    ensures Val(cur + [d]) < B * V
  {
    Snoc(cur, d);
  }

  lemma NextDigit(head: seq<digit>, d: digit, cur: seq<digit>, now: seq<digit>, vs: seq<digit>,
                  done: seq<digit>, qj: digit)
    requires Divides(Val(head), Val(vs), Val(done), Val(cur)) && |now| == |vs| + 1
    requires Divides(Val(cur + [d]), Val(vs), qj, Val(now))
    ensures now[0] == 0 && Divides(Val(head + [d]), Val(vs), Val(done + [qj]), Val(now[1..]))
  {
    hide Divides, Val;
    BroughtDown(head, d, cur, Val(now), Val(vs), done, qj);
    ValBound(vs);
    LeadingZero(now);
  }

  lemma BroughtDown(head: seq<digit>, d: digit, cur: seq<digit>, r: int, V: int, done: seq<digit>, qj: digit)
    requires Divides(Val(head), V, Val(done), Val(cur)) && Divides(Val(cur + [d]), V, qj, r)
    ensures Divides(Val(head + [d]), V, Val(done + [qj]), r) && r < V
  {
    hide Divides, Val;
    Snoc(cur, d);
    Snoc(head, d);
    Snoc(done, qj);
    BroughtDownValue(Val(head), Val(done), Val(cur), d, qj, r, V, Val(head + [d]), Val(done + [qj]), Val(cur + [d]));
  }

  lemma BroughtDownValue(h: int, Q: int, c: int, d: int, qj: int, r: int, V: int, h': int, Q': int, c': int)
    requires Divides(h, V, Q, c) && Divides(c', V, qj, r)
    requires h' == h * B + d && Q' == Q * B + qj && c' == c * B + d
    ensures Divides(h', V, Q', r) && r < V
  {
    ChainStep(h, Q, c, d, qj, r, V);
  }

  lemma Snoc(s: seq<digit>, d: digit)
    ensures Val(s + [d]) == Val(s) * B + d
  {
    assert (s + [d])[..|s|] == s;
  }

  // ---------------------------------------------------------------- exercise 16: a one-digit divisor

  method OneDigit(u: array<digit>, t: digit) returns (hi: uint32, lo: uint32, rem: digit)
    requires u.Length == 5 && t > 0
    ensures Divides(Val(u[1..5]), t, Join(hi, lo), rem)
  {
    var q1, r1 := DigitQuotient(0, u[1], t);
    assert Divides(u[1], t, q1, r1);
    var q2, r2 := DigitQuotient(r1, u[2], t);
    var q3, r3 := DigitQuotient(r2, u[3], t);
    var q4, r4 := DigitQuotient(r3, u[4], t);
    hide *;
    hi := Combine(q1, q2);
    lo := Combine(q3, q4);
    rem := r4;
    ValOfFour(u[1..5]);
    Chain(u[1], u[2], u[3], u[4], q1, q2, q3, q4, r1, r2, r3, r4, t);
  }

  method DigitQuotient(r: digit, u: digit, t: digit) returns (q: digit, r': digit)
    requires r < t
    ensures Divides(r * B + u, t, q, r')
  {
    var rbj := Combine(r, u);
    SmallWord(r * B);
    DivMod(rbj, t);
    if rbj / t >= B {
      MulMono(B, rbj / t, t);
    }
    if rbj / t < 0 {
      MulMono(rbj / t, -1, t);
    }
    q := rbj / t;
    r' := rbj % t;
  }

  lemma Chain(u1: digit, u2: digit, u3: digit, u4: digit, q1: digit, q2: digit, q3: digit, q4: digit,
              r1: int, r2: int, r3: int, r4: int, t: int)
    requires Divides(u1, t, q1, r1) && Divides(r1 * B + u2, t, q2, r2)
    requires Divides(r2 * B + u3, t, q3, r3) && Divides(r3 * B + u4, t, q4, r4)
    ensures Divides(Join(Combine(u1, u2), Combine(u3, u4)), t, Join(Combine(q1, q2), Combine(q3, q4)), r4)
  {
    hide Divides;
    ChainStep(u1, q1, r1, u2, q2, r2, t);
    ChainStep(u1 * B + u2, q1 * B + q2, r2, u3, q3, r3, t);
    ChainStep((u1 * B + u2) * B + u3, (q1 * B + q2) * B + q3, r3, u4, q4, r4, t);
    JoinValue(u1, u2, u3, u4);
    JoinValue(q1, q2, q3, q4);
  }

  lemma ChainStep(U: int, Q: int, r: int, u: int, q: int, r': int, t: int)
    requires Divides(U, t, Q, r) && Divides(r * B + u, t, q, r')
    ensures Divides(U * B + u, t, Q * B + q, r')
  {
    assert (Q * B + q) * t == (Q * t) * B + q * t;
  }

  lemma JoinValue(a: digit, b: digit, c: digit, d: digit)
    ensures Join(Combine(a, b), Combine(c, d)) == ((a * B + b) * B + c) * B + d
  {
  }

  // ---------------------------------------------------------------- the whole function

  lemma StripZeros(s: seq<digit>, k: nat)
    requires k <= |s| && forall i :: 0 <= i < k ==> s[i] == 0
    ensures Val(s) == Val(s[k..])
  {
    assert s == s[..k] + s[k..];
    ValConcat(s[..k], s[k..]);
    ValZeros(s[..k]);
  }

  lemma {:induction false} Pow2Mono(a: nat, b: nat)
    requires a <= b
    ensures Pow2(a) <= Pow2(b)
  {
    if a < b {
      Pow2Mono(a, b - 1);
    }
  }

  ghost predicate Normalises(v1: digit, d: nat) {
    B / 2 <= v1 * Pow2(d) < B
  }

  // D1: how far to shift a leading digit to reach B/2.
  method Normalisation(v1: digit) returns (d: nat)
    requires v1 > 0
    ensures d <= 15 && Normalises(v1, d)
  {
    d := 0;
    var t := v1;
    ShiftPair(1);
    assert Pow2(1) == 2;
    while t < B / 2
      invariant d <= 15 && t == v1 * Pow2(d) && Pow2(d) <= t < B
      decreases B - t
    {
      MulAssoc(v1, Pow2(d), 2);
      t := 2 * t;
      d := d + 1;
    }
  }

  // Skip the leading zeros of the dividend; it has at least as many digits as the divisor.
  method SkipZeros(us: array<digit>, n: nat, ghost V: int) returns (uo: nat, m: nat)
    requires us.Length == 5 && 2 <= n <= 4 && us[0] == 0 && Pow(n - 1) <= V <= Val(us[1..5])
    ensures uo + m + n == 4 && us[uo + 1] != 0
    ensures forall i :: 0 <= i <= uo ==> us[i] == 0
  {
    hide Val, Pow;
    uo, m := 0, 4 - n;
    while us[uo + 1] == 0
      invariant uo + m + n == 4 && forall i :: 0 <= i <= uo ==> us[i] == 0
      decreases m
    {
      TooShort(us[1..5], uo + 1);
      uo := uo + 1;
      m := m - 1;
    }
  }

  lemma TooShort(s: seq<digit>, k: nat)
    requires k <= |s| && forall i :: 0 <= i < k ==> s[i] == 0
    ensures Val(s) < Pow(|s| - k)
  {
    StripZeros(s, k);
    ValBound(s[k..]);
  }

  lemma SameDividend(s: seq<digit>, uo: nat)
    requires 1 <= uo + 1 < |s| && forall i :: 0 <= i <= uo ==> s[i] == 0
    ensures Val(s[1..]) == Val(s[uo..])
  {
    StripZeros(s, 1);
    StripZeros(s, uo);
  }

  // Algorithm D proper, on a divisor of at least two digits.
  method AlgorithmD(us: array<digit>, vs: array<digit>, n: nat, wantRem: bool)
    returns (quot: uint64, rem: Option<uint64>)
    requires us.Length == vs.Length == 5 && us != vs && 2 <= n <= 4
    requires us[0] == 0 && vs[5 - n] != 0 && Val(vs[5 - n..5]) <= Val(us[1..5])
    modifies us, vs
    ensures old(Val(vs[5 - n..5])) > 0 && quot == old(Val(us[1..5])) / old(Val(vs[5 - n..5]))
    ensures rem == if wantRem then Some(old(Val(us[1..5])) % old(Val(vs[5 - n..5]))) else None
  {
    hide *;
    ghost var U, V := Val(us[1..5]), Val(vs[5 - n..5]);
    AtLeast(vs[5 - n..5]);
    var uo, m := SkipZeros(us, n, V);
    SameDividend(us[..], uo);
    assert us[..][1..] == us[1..5] && us[..][uo..] == us[uo..5];
    var qs := QuotientSpace(4 - m);
    var d := Normalisation(vs[5 - n]);
    Normalise(us, uo, m, vs, n, d);
    ghost var S, U', V' := Pow2(d), Val(us[uo..5]), Val(vs[5 - n..5]);
    assert 4 - n + 1 == 5 - n;
    DivideLoop(us, uo, vs, 4 - n, qs, 4 - m, n, m);
    StripZeros(qs[1..5], 3 - m);
    assert qs[1..5][3 - m..] == qs[4 - m..5];
    ValOfFour(qs[1..5]);
    quot := Join(Combine(qs[1], qs[2]), Combine(qs[3], qs[4]));
    ghost var R := Val(us[uo + m + 1..5]);
    Unscale(U, V, S, quot, R, U', V');
    rem := None;
    if wantRem {
      if d > 0 {
        ShiftBack(us, uo + m, n, d);
        assert us[uo + m + 1..uo + m + 1 + n] == us[uo + m + 1..5];
      } else {
        OneIsUnit(d, R);
      }
      forall i | 0 <= i < uo + m ensures us[1..5][i] == 0 {
        assert us[i + 1] == 0;
      }
      StripZeros(us[1..5], uo + m);
      assert us[1..5][uo + m..] == us[uo + m + 1..5];
      ValOfFour(us[1..5]);
      rem := Some(Join(Combine(us[1], us[2]), Combine(us[3], us[4])));
    }
  }

  // qspace with its first k digits cleared.
  method QuotientSpace(k: nat) returns (qs: array<digit>)
    requires k <= 4
    ensures fresh(qs) && qs.Length == 5 && forall l :: 0 <= l < k ==> qs[l] == 0
  {
    qs := new digit[5];
    var i := k;
    while i > 0
      invariant 0 <= i <= k && forall l :: i <= l < k ==> qs[l] == 0
    {
      i := i - 1;
      qs[i] := 0;
    }
  }

  method Normalise(us: array<digit>, uo: nat, m: nat, vs: array<digit>, n: nat, d: nat)
    requires us.Length == vs.Length == 5 && us != vs && 2 <= n && uo + m + n == 4 && us[uo] == 0
    requires d <= 15 && vs[5 - n] != 0 && Normalises(vs[5 - n], d)
    modifies us, vs
    ensures forall i :: 0 <= i < uo ==> us[i] == old(us[i])
    ensures Shifted(Val(us[uo..5]), old(Val(us[uo..5])), Pow2(d), 0)
    ensures Shifted(Val(vs[5 - n..5]), old(Val(vs[5 - n..5])), Pow2(d), 0)
    ensures Val(us[uo..uo + n]) < Val(vs[5 - n..5]) && B / 2 <= vs[5 - n]
  {
    hide Val, Pow, Pow2, Shifted, Normalises;
    ghost var U, V := us[uo..5], vs[5 - n..5];
    if d > 0 {
      TopBitsFree(vs[5 - n], d);
      Shl(us, uo, m + n, d);
      Shl(vs, 5 - n, n - 1, d);
      assert us[uo..uo + 1 + (m + n)] == us[uo..5] && vs[5 - n..5 - n + 1 + (n - 1)] == vs[5 - n..5];
      assert old(us[uo..uo + 1 + (m + n)]) == U && old(vs[5 - n..5 - n + 1 + (n - 1)]) == V;
    } else {
      OneIsUnit(d, Val(U));
      OneIsUnit(d, Val(V));
    }
    Normalised(U, V, m, d, Pow2(d), us[uo..5], vs[5 - n..5]);
    Front(us, uo, 5, n);
    assert vs[5 - n..5][0] == vs[5 - n];
  }

  lemma Front(a: array<digit>, i: nat, j: nat, n: nat)
    requires i + n <= j <= a.Length
    ensures a[i..j][..n] == a[i..i + n]
  {
  }

  lemma Normalised(U: seq<digit>, V: seq<digit>, m: nat, d: nat, S: int, U': seq<digit>, V': seq<digit>)
    requires |U| == |U'| == |V| + m + 1 && |V| == |V'| >= 1 && U[0] == 0 && V[0] != 0 && S >= 1
    requires Shifted(Val(U'), Val(U), S, 0) && Shifted(Val(V'), Val(V), S, 0) && S == Pow2(d) && Normalises(V[0], d)
    ensures Val(U'[..|V|]) < Val(V') && B / 2 <= V'[0]
  {
    ScaledBound(U, V, m, S, U', Val(V'));
    ScaledTop(V, V', S);
  }

  lemma OneIsUnit(d: nat, x: int)
    requires d == 0
    ensures Shifted(x, x, Pow2(d), 0) && x / Pow2(d) == x
  {
  }

  lemma AtLeast(s: seq<digit>)
    requires s != [] && s[0] != 0
    ensures Pow(|s| - 1) <= Val(s)
  {
    hide Val, Pow;
    ValHead(s);
    MulMono(1, s[0], Pow(|s| - 1));
  }

  lemma TopBitsFree(v: digit, d: nat)
    requires 1 <= d <= 15 && Normalises(v, d)
    ensures v < Pow2(16 - d) && 0 < Pow2(16 - d)
  {
    hide Pow2;
    ShiftPair(d);
    if v >= Pow2(16 - d) {
      MulMono(Pow2(16 - d), v, Pow2(d));
    }
  }

  // With u[0] = 0 the leading n digits of the normalised dividend are below the divisor.
  lemma ScaledBound(U: seq<digit>, V: seq<digit>, m: nat, S: int, U': seq<digit>, V': int)
    requires |U| == |U'| == |V| + m + 1 && |V| >= 1 && U[0] == 0 && V[0] != 0 && S >= 1
    requires Shifted(Val(U'), Val(U), S, 0) && Shifted(V', Val(V), S, 0)
    ensures Val(U'[..|V|]) < V'
  {
    hide Val, Pow, Shifted, Below;
    DividendBound(U, V, m);
    assert U'[..|V|] + U'[|V|..] == U' && |U'[|V|..]| == m + 1;
    ShiftedConcat(U'[..|V|], U'[|V|..]);
    ScaledBoundValue(Val(U), Val(V), Pow(m + 1), S, Val(U'), V', Val(U'[..|V|]), Val(U'[|V|..]));
  }

  ghost predicate Below(x: int, V: int, P: int) {
    x < V * P
  }

  lemma DividendBound(U: seq<digit>, V: seq<digit>, m: nat)
    requires |U| == |V| + m + 1 && |V| >= 1 && U[0] == 0 && V[0] != 0
    ensures Below(Val(U), Val(V), Pow(m + 1))
  {
    hide Val;
    StripZeros(U, 1);
    ValBound(U[1..]);
    AtLeast(V);
    PowAdd(|V| - 1, m + 1);
    MulMono(Pow(|V| - 1), Val(V), Pow(m + 1));
  }

  lemma ShiftedConcat(s: seq<digit>, t: seq<digit>)
    ensures Shifted(Val(s + t), Val(s), Pow(|t|), Val(t))
  {
    ValConcat(s, t);
  }

  lemma ScaledBoundValue(U: int, V: int, P: int, S: int, U': int, V': int, t: int, l: int)
    requires Below(U, V, P) && 1 <= P && 1 <= S && Shifted(U', U, S, 0) && Shifted(V', V, S, 0)
    requires Shifted(U', t, P, l) && 0 <= l
    ensures t < V'
  {
    assert S * (V * P) == (S * V) * P;
    MulMono(U + 1, V * P, S);
    MulDist(U, 1, S);
    if t >= V' {
      MulMono(V', t, P);
    }
  }

  lemma ScaledTop(V: seq<digit>, V': seq<digit>, S: int)
    requires |V| == |V'| >= 1 && S >= 1 && Shifted(Val(V'), Val(V), S, 0) && B / 2 <= V[0] * S
    ensures B / 2 <= V'[0]
  {
    hide Val, Pow, Shifted;
    ValHead(V);
    ValHead(V');
    ValBound(V'[1..]);
    ScaledTopValue(V[0], V'[0], S, Pow(|V| - 1), Val(V[1..]), Val(V'[1..]), Val(V), Val(V'));
  }

  lemma ScaledTopValue(a: int, a': int, S: int, P: int, l: int, l': int, V: int, V': int)
    requires S >= 1 && P >= 1 && 0 <= l && l' < P && V == a * P + l && V' == a' * P + l'
    requires Shifted(V', V, S, 0) && B / 2 <= a * S
    ensures B / 2 <= a'
  {
    assert S * (a * P + l) == (a * S) * P + S * l;
    MulMono(0, l, S);
    MulMono(B / 2, a * S, P);
    if a' < B / 2 {
      MulMono(a' + 1, B / 2, P);
      MulDist(a', 1, P);
    }
  }

  // Undo the normalisation: scaling both operands changes the remainder, not the quotient.
  lemma Unscale(U: int, V: int, S: int, q: int, R: int, U': int, V': int)
    requires S >= 1 && Shifted(U', U, S, 0) && Shifted(V', V, S, 0) && Divides(U', V', q, R)
    ensures q == U / V && R / S == U % V && V > 0
  {
    var r := U - q * V;
    assert q * (S * V) == S * (q * V) && S * (U - q * V) == S * U - S * (q * V);
    if r < 0 {
      MulMono(r, -1, S);
    }
    if r >= V {
      MulMono(V, r, S);
    }
    DivModUnique(U, V, q, r);
    DivModUnique(R, S, r, 0);
  }

  /**
   * `__qdivrem(u, v, rem)`: for every dividend and every nonzero divisor, the quotient
   * and, when the caller passes a place for it, the remainder.
   */
  method QDivRem(ull: uint64, vll: uint64, wantRem: bool) returns (r: Outcome)
    ensures vll == 0 ==> r == Trap
    ensures vll > 0 ==> r == Done(ull / vll, if wantRem then Some(ull % vll) else None)
  {
    hide *;
    if vll == 0 {
      return Trap;
    }
    if ull < vll {
      SmallDividend(ull, vll);
      return Done(0, if wantRem then Some(ull) else None);
    }
    var us := Spread(ull);
    var vs := Spread(vll);
    var n, vo := 4, 0;
    while vs[vo + 1] == 0
      invariant n == 4 - vo && 2 <= n <= 4 && us[0] == 0
      invariant forall i :: 0 <= i <= vo ==> vs[i] == 0
      invariant Val(us[1..5]) == ull && Val(vs[1..5]) == vll
      decreases n
    {
      n := n - 1;
      if n == 1 {
        StripZeros(vs[1..5], 3);
        OneDigitValue(vs[1..5]);
        var hi, lo, rem := OneDigit(us, vs[vo + 2]);
        DivModUnique(ull, vll, Join(hi, lo), rem);
        return Done(Join(hi, lo), if wantRem then Some(rem) else None);
      }
      vo := vo + 1;
    }
    StripZeros(vs[1..5], vo);
    assert vs[1..5][vo..] == vs[5 - n..5];
    var quot, rem := AlgorithmD(us, vs, n, wantRem);
    return Done(quot, rem);
  }

  method Spread(x: uint64) returns (a: array<digit>)
    ensures fresh(a) && a.Length == 5 && a[0] == 0 && Val(a[1..5]) == x
  {
    a := new digit[5](i => 0);
    a[1] := HHalf(High(x));
    a[2] := LHalf(High(x));
    a[3] := HHalf(Low(x));
    a[4] := LHalf(Low(x));
    ValOfFour(a[1..5]);
    JoinValue(a[1], a[2], a[3], a[4]);
  }

  lemma SmallDividend(u: int, v: int)
    requires 0 <= u < v
    ensures u / v == 0 && u % v == u
  {
    DivModUnique(u, v, 0, u);
  }

  lemma OneDigitValue(s: seq<digit>)
    requires |s| == 4 && s[0] == s[1] == s[2] == 0
    ensures Val(s) == s[3]
  {
    ValOfFour(s);
  }
}
