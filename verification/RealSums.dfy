/** Sums and squared differences of sequences of reals. */
module RealSums {
  import opened Reals

  /** The entries added up from the front. */
  function FrontSum(s: seq<real>): real { if s == [] then 0.0 else s[0] + FrontSum(s[1..]) }

  lemma {:induction false} FrontSumAppend(s: seq<real>, x: real)
    ensures FrontSum(s + [x]) == FrontSum(s) + x
  {
    if s != [] {
      assert (s + [x])[1..] == s[1..] + [x];
      FrontSumAppend(s[1..], x);
    }
  }

  lemma OneMoreTerm(s: seq<real>, n: nat)
    requires n < |s|
    ensures FrontSum(s[..n + 1]) == FrontSum(s[..n]) + s[n]
  {
    FrontSumAppend(s[..n], s[n]);
    assert s[..n + 1] == s[..n] + [s[n]];
  }

  lemma NoTerms(s: seq<real>)
    ensures FrontSum(s[..0]) == 0.0
  {}

  /** The squared differences from a mean. */
  function SquaredDifferences(s: seq<real>, mean: real): (t: seq<real>)
    ensures |t| == |s| && forall i: nat :: i < |s| ==> t[i] == Square(s[i] - mean)
  {
    seq(|s|, (i: nat) requires i < |s| => Square(s[i] - mean))
  }
}
