/**
  Cutting a row of sizes into consecutive runs, each taken as long as it fits: no other
  way of cutting it into runs that fit has fewer.
*/
module Greedy {

  function Total(xs: seq<nat>, i: nat): nat
    requires i <= |xs|
  {
    if i == 0 then 0 else Total(xs, i - 1) + xs[i - 1]
  }

  lemma {:induction false} TotalGrows(xs: seq<nat>, a: nat, b: nat)
    requires a <= b <= |xs|
    ensures Total(xs, a) <= Total(xs, b)
    decreases b - a
  {
    if a < b { TotalGrows(xs, a, b - 1); }
  }

  /** A run may stand alone, or hold at most `limit` together. */
  predicate Fits(xs: seq<nat>, limit: nat, a: nat, b: nat)
    requires a <= b <= |xs|
  {
    b <= a + 1 || Total(xs, b) - Total(xs, a) <= limit
  }

  lemma FitsWithin(xs: seq<nat>, limit: nat, a: nat, b: nat, c: nat, d: nat)
    requires a <= c <= d <= b <= |xs| && Fits(xs, limit, a, b)
    ensures Fits(xs, limit, c, d)
  {
    TotalGrows(xs, a, c);
    TotalGrows(xs, d, b);
  }

  /** Cut points of a row into consecutive runs that each fit. */
  ghost predicate Cuts(xs: seq<nat>, limit: nat, cuts: seq<nat>) {
    && |cuts| > 0 && cuts[|cuts| - 1] == |xs|
    && (forall i :: 0 <= i < |cuts| ==> cuts[i] <= |xs|)
    && (forall i :: 0 <= i < |cuts| - 1 ==> cuts[i] < cuts[i + 1] && Fits(xs, limit, cuts[i], cuts[i + 1]))
  }

  /** Every run was taken as long as it could be. */
  ghost predicate Longest(xs: seq<nat>, limit: nat, cuts: seq<nat>) {
    forall i, b :: 0 <= i < |cuts| - 1 && cuts[i] <= cuts[i + 1] < b <= |xs| ==> !Fits(xs, limit, cuts[i], b)
  }

  lemma {:induction false} StaysAhead(xs: seq<nat>, limit: nat, greedy: seq<nat>, other: seq<nat>, i: nat)
    requires Cuts(xs, limit, greedy) && Longest(xs, limit, greedy)
    requires Cuts(xs, limit, other)
    requires other[0] <= greedy[0]
    requires i < |greedy| && i < |other|
    ensures other[i] <= greedy[i]
  {
    if i > 0 {
      StaysAhead(xs, limit, greedy, other, i - 1);
      var from, to := greedy[i - 1], other[i];
      assert greedy[i - 1] < greedy[i - 1 + 1];
      assert other[i - 1] < other[i - 1 + 1];
      if from <= to { FitsWithin(xs, limit, other[i - 1], to, from, to); }
    }
  }

  lemma NotYetAtTheEnd(xs: seq<nat>, limit: nat, cuts: seq<nat>, i: nat)
    requires Cuts(xs, limit, cuts) && i < |cuts| - 1
    ensures cuts[i] < |xs|
  {
    assert cuts[i] < cuts[i + 1];
  }

  /** No cutting into runs that fit has fewer runs than the greedy one. */
  lemma GreedyIsFewest(xs: seq<nat>, limit: nat, greedy: seq<nat>, other: seq<nat>)
    requires Cuts(xs, limit, greedy) && Longest(xs, limit, greedy)
    requires Cuts(xs, limit, other)
    requires other[0] <= greedy[0]
    ensures |greedy| <= |other|
  {
    var n := |other| - 1;
    if |greedy| > |other| {
      NotYetAtTheEnd(xs, limit, greedy, n);
      StaysAhead(xs, limit, greedy, other, n);
    }
  }

  /** Where the longest run from `a` that reaches no further than `b` ends. */
  function LongestFrom(xs: seq<nat>, limit: nat, a: nat, b: nat): (end: nat)
    requires a < b <= |xs|
    ensures a < end <= b && Fits(xs, limit, a, end)
    ensures forall c :: end < c <= b ==> !Fits(xs, limit, a, c)
  {
    if Fits(xs, limit, a, b) then b else LongestFrom(xs, limit, a, b - 1)
  }

  /** The cut points of the row from `a` on, as a caller could work them out from the sizes. */
  function GreedyCuts(xs: seq<nat>, limit: nat, a: nat): (cuts: seq<nat>)
    requires a <= |xs|
    ensures |cuts| > 0 && cuts[0] == a
    decreases |xs| - a
  {
    if a == |xs| then [a] else [a] + GreedyCuts(xs, limit, LongestFrom(xs, limit, a, |xs|))
  }

  /** Runs each taken as long as they fit can be cut in one way only. */
  lemma {:induction false} LongestRunsAreGreedy(xs: seq<nat>, limit: nat, cuts: seq<nat>)
    requires Cuts(xs, limit, cuts) && Longest(xs, limit, cuts)
    ensures cuts == GreedyCuts(xs, limit, cuts[0])
    decreases |cuts|
  {
    if |cuts| > 1 {
      var rest := cuts[1..];
      assert cuts[0] < cuts[0 + 1];
      forall i | 0 <= i < |rest| - 1 ensures rest[i] < rest[i + 1] && Fits(xs, limit, rest[i], rest[i + 1]) {
        assert rest[i] == cuts[i + 1] && rest[i + 1] == cuts[i + 1 + 1];
      }
      forall i, b | 0 <= i < |rest| - 1 && rest[i] <= rest[i + 1] < b <= |xs| ensures !Fits(xs, limit, rest[i], b) {
        assert rest[i] == cuts[i + 1] && rest[i + 1] == cuts[i + 1 + 1];
      }
      LongestRunsAreGreedy(xs, limit, rest);
      LastCutIsFurthest(xs, limit, cuts);
      assert cuts[1] == LongestFrom(xs, limit, cuts[0], |xs|);
      assert cuts == [cuts[0]] + rest;
    }
  }

  lemma {:induction false} LastCutIsFurthest(xs: seq<nat>, limit: nat, cuts: seq<nat>)
    requires Cuts(xs, limit, cuts) && |cuts| > 1
    ensures cuts[0] < |xs|
  {
    assert cuts[0] < cuts[0 + 1];
  }
}
