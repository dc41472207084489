/**
 * Multiprecision naturals as big-endian digit strings in base B = 2^16, and the
 * algebra that the division loops need.
 */
module Digits {
  import opened Words

  function Pow(k: nat): (p: int)
    ensures p >= 1
  {
    if k == 0 then 1 else B * Pow(k - 1)
  }

  // Horner's rule, from the most significant digit.
  function Val(s: seq<digit>): (v: int)
    ensures v >= 0
  {
    if s == [] then 0 else Val(s[..|s| - 1]) * B + s[|s| - 1]
  }

  lemma {:induction false} ValBound(s: seq<digit>)
    ensures Val(s) < Pow(|s|)
  {
    if s != [] {
      ValBound(s[..|s| - 1]);
    }
  }

  lemma {:induction false} PowAdd(a: nat, b: nat)
    ensures Pow(a + b) == Pow(a) * Pow(b)
  {
    if a > 0 {
      PowAdd(a - 1, b);
      MulAssoc(B, Pow(a - 1), Pow(b));
    }
  }

  lemma {:induction false} ValConcat(s: seq<digit>, t: seq<digit>)
    ensures Val(s + t) == Val(s) * Pow(|t|) + Val(t)
  {
    if t == [] {
      assert s + t == s;
    } else {
      var t' := t[..|t| - 1];
      assert (s + t)[..|s + t| - 1] == s + t';
      ValConcat(s, t');
      assert (Val(s) * Pow(|t'|)) * B == Val(s) * Pow(|t|);
    }
  }

  // The value read from its leading digit.
  lemma ValHead(s: seq<digit>)
    requires s != []
    ensures Val(s) == s[0] * Pow(|s| - 1) + Val(s[1..])
  {
    assert s == [s[0]] + s[1..];
    assert Val([s[0]]) == s[0];
    ValConcat([s[0]], s[1..]);
  }

  // A number below B^(|s|-1) has a zero leading digit.
  lemma LeadingZero(s: seq<digit>)
    requires s != [] && Val(s) < Pow(|s| - 1)
    ensures s[0] == 0 && Val(s) == Val(s[1..])
  {
    hide Val, Pow;
    ValHead(s);
    if s[0] >= 1 {
      MulMono(1, s[0], Pow(|s| - 1));
    }
  }

  lemma {:induction false} ValZeros(s: seq<digit>)
    requires forall i :: 0 <= i < |s| ==> s[i] == 0
    ensures Val(s) == 0
  {
    if s != [] {
      ValZeros(s[..|s| - 1]);
    }
  }

  lemma ValOfFour(s: seq<digit>)
    requires |s| == 4
    ensures Val(s) == Join(Combine(s[0], s[1]), Combine(s[2], s[3]))
  {
    var s3, s2 := s[..3], s[..2];
    assert s3[..2] == s2 && s2[..1] == [s[0]] && Val([s[0]]) == s[0];
    assert Val(s2) == s[0] * B + s[1];
    assert Val(s3) == Val(s2) * B + s[2];
  }
}
