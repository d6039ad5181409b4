/** Weighted counting over sequences: the arithmetic behind every
    "how many copies of this message are there" invariant. */
module Counting {

  /** The sum of `w` over the elements of `s`. */
  function Sum<A>(s: seq<A>, w: A -> nat): nat {
    if |s| == 0 then 0 else Sum(s[..|s| - 1], w) + w(s[|s| - 1])
  }

  /** `s` without its element at `i`. */
  function Without<A>(s: seq<A>, i: nat): seq<A>
    requires i < |s|
  {
    s[..i] + s[i + 1..]
  }

  lemma SumAppend<A>(s: seq<A>, a: A, w: A -> nat)
    ensures Sum(s + [a], w) == Sum(s, w) + w(a)
  {
    assert (s + [a])[..|s|] == s;
  }

  lemma {:induction false} SumConcat<A>(s: seq<A>, t: seq<A>, w: A -> nat)
    ensures Sum(s + t, w) == Sum(s, w) + Sum(t, w)
    decreases |t|
  {
    if |t| == 0 {
      assert s + t == s;
    } else {
      var u := t[..|t| - 1];
      SumConcat(s, u, w);
      assert (s + t)[..|s + t| - 1] == s + u;
    }
  }

  /** Splitting a sequence around one element splits its sum. */
  lemma SumSplit<A>(s: seq<A>, i: nat, w: A -> nat)
    requires i < |s|
    ensures Sum(s, w) == Sum(s[..i], w) + w(s[i]) + Sum(s[i + 1..], w)
  {
    assert s == (s[..i] + [s[i]]) + s[i + 1..];
    SumConcat(s[..i] + [s[i]], s[i + 1..], w);
    SumAppend(s[..i], s[i], w);
  }

  lemma SumWithout<A>(s: seq<A>, i: nat, w: A -> nat)
    requires i < |s|
    ensures Sum(Without(s, i), w) + w(s[i]) == Sum(s, w)
  {
    SumSplit(s, i, w);
    SumConcat(s[..i], s[i + 1..], w);
  }

  lemma SumUpdate<A>(s: seq<A>, i: nat, a: A, w: A -> nat)
    requires i < |s|
    ensures Sum(s[i := a], w) + w(s[i]) == Sum(s, w) + w(a)
  {
    SumSplit(s, i, w);
    SumSplit(s[i := a], i, w);
    assert s[i := a][..i] == s[..i] && s[i := a][i + 1..] == s[i + 1..];
  }

  /** Two different positions both contribute. */
  lemma SumPair<A>(s: seq<A>, i: nat, j: nat, w: A -> nat)
    requires i < j < |s|
    ensures Sum(s, w) >= w(s[i]) + w(s[j])
  {
    SumSplit(s, j, w);
    SumSplit(s[..j], i, w);
  }

  lemma SumAt<A>(s: seq<A>, i: nat, w: A -> nat)
    requires i < |s|
    ensures Sum(s, w) >= w(s[i])
  {
    SumSplit(s, i, w);
  }

  /** A sum is zero exactly when every weight is. */
  lemma {:induction false} SumZero<A>(s: seq<A>, w: A -> nat)
    ensures Sum(s, w) == 0 <==> forall i :: 0 <= i < |s| ==> w(s[i]) == 0
  {
    if |s| > 0 {
      var front := s[..|s| - 1];
      SumZero(front, w);
      assert forall i :: 0 <= i < |front| ==> front[i] == s[i];
    }
  }

  /** A positive sum has a contributing position. */
  lemma SumWitness<A>(s: seq<A>, w: A -> nat) returns (i: nat)
    requires Sum(s, w) > 0
    ensures i < |s| && w(s[i]) > 0
  {
    SumZero(s, w);
    i :| i < |s| && w(s[i]) != 0;
  }
}
