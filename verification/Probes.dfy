/**
  How often each class was asked. The store keeps one counter per class for the lookups that class
  answered and one for the lookups nobody did, and derives the rest when statistics are taken.
*/
module Probes {
  import opened Basics

  /** The counters of the classes from `c` on. */
  function From(answered: seq<nat>, c: nat): nat
    requires c <= |answered|
    decreases |answered| - c
  {
    if c == |answered| then 0 else answered[c] + From(answered, c + 1)
  }

  /** One lookup more answered in class `d` is one more for `d` and every class before it. */
  lemma {:induction false} FromOneMore(answered: seq<nat>, d: nat, c: nat)
    requires d < |answered| && c <= |answered|
    ensures From(answered[d := answered[d] + 1], c) == From(answered, c) + if c <= d then 1 else 0
    decreases |answered| - c
  {
    if c < |answered| { FromOneMore(answered, d, c + 1); }
  }

  /** A class is asked unless a class before it had the answer. */
  predicate Asked(actives: seq<Table>, key: Key, c: nat) {
    c < |actives| && forall d :: 0 <= d < c ==> key !in actives[d]
  }

  class Counters {
    var answered: seq<nat>
    var deferred: nat
    /** What the store does not keep: the searches of each class's active map, counted as they happen. */
    ghost var searched: seq<nat>

    ghost predicate Valid()
      reads this
    {
      && |searched| == |answered|
      && forall c :: 0 <= c < |answered| ==> searched[c] == deferred + From(answered, c)
    }

    constructor (classes: nat)
      ensures Valid() && |answered| == classes
      ensures searched == seq(classes, _ => 0)
    {
      answered := seq(classes, _ => 0);
      deferred := 0;
      searched := seq(classes, _ => 0);
      new;
      forall c | 0 <= c < classes ensures From(answered, c) == 0 { FromNothing(answered, c); }
    }

    static lemma {:induction false} FromNothing(answered: seq<nat>, c: nat)
      requires c <= |answered| && forall d :: 0 <= d < |answered| ==> answered[d] == 0
      ensures From(answered, c) == 0
      decreases |answered| - c
    {
      if c < |answered| { FromNothing(answered, c + 1); }
    }

    /** `full_find` with its counters: class after class until one has the key. */
    method Find(actives: seq<Table>, key: Key) returns (r: Option<Entry>)
      requires Valid() && |actives| == |answered|
      modifies this
      ensures Valid() && |answered| == |actives|
      ensures r.Some? <==> exists c :: 0 <= c < |actives| && key in actives[c]
      ensures forall c: nat :: Asked(actives, key, c) && key in actives[c] ==> r == Some(actives[c][key])
      ensures forall c :: 0 <= c < |actives| ==>
                searched[c] == old(searched[c]) + if Asked(actives, key, c) then 1 else 0
      ensures deferred == old(deferred) + if r.None? then 1 else 0
    {
      r := None;
      var i := 0;
      ghost var hit: nat := |actives|;
      while i < |actives|
        invariant 0 <= i <= |actives| == |old(answered)| && |searched| == |actives| && hit <= |actives|
        invariant r.None? ==> hit == |actives| && answered == old(answered) && forall d :: 0 <= d < i ==> key !in actives[d]
        invariant r.Some? ==> hit < i && answered == old(answered)[hit := old(answered)[hit] + 1]
        invariant r.Some? ==> Asked(actives, key, hit) && key in actives[hit] && r.value == actives[hit][key]
        invariant deferred == old(deferred)
        invariant forall c :: 0 <= c < |actives| ==> searched[c] == old(searched[c]) + if c < i && c <= hit then 1 else 0
      {
        if r.None? {
          searched := searched[i := searched[i] + 1];
          if key in actives[i] {
            answered := answered[i := answered[i] + 1];
            r := Some(actives[i][key]);
            hit := i;
          }
        }
        i := i + 1;
      }
      if r.None? { deferred := deferred + 1; }
      forall c | 0 <= c < |answered| ensures searched[c] == deferred + From(answered, c) {
        if r.Some? { FromOneMore(old(answered), hit, c); }
      }
    }

    /** The derivation of `get_statistics`: one backward pass gives every class exactly its searches. */
    method Report() returns (probed: seq<nat>)
      requires Valid()
      ensures probed == searched
    {
      probed := seq(|answered|, _ => 0);
      var reached := deferred;
      var i := |answered|;
      while i > 0
        invariant 0 <= i <= |answered| == |probed|
        invariant reached == deferred + From(answered, i)
        invariant forall c :: i <= c < |answered| ==> probed[c] == searched[c]
      {
        i := i - 1;
        reached := reached + answered[i];
        probed := probed[i := reached];
      }
    }
  }
}
