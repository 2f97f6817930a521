/**
  A caller's batch: the distinct keys it names, and the list of those still pending, shrunk in
  place as files are visited.
*/
module Batch {
  import opened Basics

  datatype Request = Request(key: Key, height: nat)

  /** No earlier request names the same key. */
  predicate First(requests: seq<Request>, i: nat)
    requires i < |requests|
  {
    forall j :: 0 <= j < i ==> requests[j].key != requests[i].key
  }

  function FirstsUpTo(requests: seq<Request>, n: nat): seq<nat>
    requires n <= |requests|
  {
    if n == 0 then [] else FirstsUpTo(requests, n - 1) + (if First(requests, n - 1) then [n - 1] else [])
  }

  /** The first occurrence of each key, in order. */
  function WorkingSet(requests: seq<Request>): seq<nat> { FirstsUpTo(requests, |requests|) }

  /** Indices into a batch naming distinct keys. */
  ghost predicate DistinctKeys(requests: seq<Request>, pending: seq<nat>) {
    && (forall p :: 0 <= p < |pending| ==> pending[p] < |requests|)
    && (forall p, q :: 0 <= p < q < |pending| ==> requests[pending[p]].key != requests[pending[q]].key)
  }

  lemma {:induction false} FirstsHold(requests: seq<Request>, n: nat)
    requires n <= |requests|
    ensures forall i :: i in FirstsUpTo(requests, n) <==> 0 <= i < n && First(requests, i)
    ensures Ascending(FirstsUpTo(requests, n))
  {
    if n > 0 {
      FirstsHold(requests, n - 1);
      var before := FirstsUpTo(requests, n - 1);
      assert forall p :: 0 <= p < |before| ==> before[p] in before;
    }
  }

  lemma {:induction false} FirstOf(requests: seq<Request>, i: nat) returns (w: nat)
    requires i < |requests|
    ensures w <= i && First(requests, w) && requests[w].key == requests[i].key
  {
    w := i;
    if !First(requests, i) {
      var j :| 0 <= j < i && requests[j].key == requests[i].key;
      w := FirstOf(requests, j);
    }
  }

  /** Every key of the batch is in the working set, once, by its first occurrence. */
  lemma WorkingSetIsFirsts(requests: seq<Request>)
    ensures DistinctKeys(requests, WorkingSet(requests))
    ensures forall i :: i in WorkingSet(requests) <==> 0 <= i < |requests| && First(requests, i)
    ensures forall i :: 0 <= i < |requests| ==> exists w :: w in WorkingSet(requests) && w < |requests| && requests[w].key == requests[i].key
  {
    FirstsHold(requests, |requests|);
    var all := WorkingSet(requests);
    assert forall p :: 0 <= p < |all| ==> all[p] in all;
    forall i | 0 <= i < |requests| ensures exists w :: w in all && w < |requests| && requests[w].key == requests[i].key {
      var w := FirstOf(requests, i);
      assert w in all;
    }
  }

  /** `working_set_of`: one pass with the set of keys seen so far. */
  method WorkingSetOf(requests: seq<Request>) returns (pending: seq<nat>)
    ensures pending == WorkingSet(requests)
  {
    pending := [];
    var seen: set<Key> := {};
    var i := 0;
    while i < |requests|
      invariant 0 <= i <= |requests|
      invariant pending == FirstsUpTo(requests, i)
      invariant forall k :: k in seen <==> exists j :: 0 <= j < i && requests[j].key == k
    {
      if requests[i].key !in seen {
        seen := seen + {requests[i].key};
        pending := pending + [i];
      }
      i := i + 1;
    }
  }

  // ------------------------------------------------------------------
  // One file's worth of a batch
  // ------------------------------------------------------------------

  predicate InBatch(requests: seq<Request>, pending: seq<nat>) {
    forall p :: 0 <= p < |pending| ==> pending[p] < |requests|
  }

  /** The pending requests whose key a file holds. */
  function Hits(requests: seq<Request>, pending: seq<nat>, t: Table): (h: seq<nat>)
    requires InBatch(requests, pending)
    ensures InBatch(requests, h)
  {
    if pending == [] then []
    else
      var before := Hits(requests, pending[..|pending| - 1], t);
      if requests[pending[|pending| - 1]].key in t then before + [pending[|pending| - 1]] else before
  }

  /** And those it does not. */
  function Misses(requests: seq<Request>, pending: seq<nat>, t: Table): (m: seq<nat>)
    requires InBatch(requests, pending)
    ensures InBatch(requests, m)
  {
    if pending == [] then []
    else
      var before := Misses(requests, pending[..|pending| - 1], t);
      if requests[pending[|pending| - 1]].key in t then before else before + [pending[|pending| - 1]]
  }

  lemma {:induction false} HitsAndMisses(requests: seq<Request>, pending: seq<nat>, t: Table)
    requires InBatch(requests, pending)
    ensures multiset(Hits(requests, pending, t)) + multiset(Misses(requests, pending, t)) == multiset(pending)
    ensures forall i :: i in Hits(requests, pending, t) ==> i in pending && i < |requests| && requests[i].key in t
    ensures forall i :: i in Misses(requests, pending, t) ==> i in pending && i < |requests| && requests[i].key !in t
  {
    if pending != [] {
      var init, last := pending[..|pending| - 1], pending[|pending| - 1];
      HitsAndMisses(requests, init, t);
      assert pending == init + [last];
    }
  }

  lemma DistinctSnoc(requests: seq<Request>, picks: seq<nat>, i: nat)
    requires DistinctKeys(requests, picks) && i < |requests|
    requires forall x :: x in picks && x < |requests| ==> requests[x].key != requests[i].key
    ensures DistinctKeys(requests, picks + [i])
  {
    assert forall p :: 0 <= p < |picks| ==> picks[p] in picks;
  }

  lemma {:induction false} SplitsDistinct(requests: seq<Request>, pending: seq<nat>, t: Table)
    requires DistinctKeys(requests, pending)
    ensures DistinctKeys(requests, Hits(requests, pending, t)) && DistinctKeys(requests, Misses(requests, pending, t))
  {
    if pending != [] {
      var init, last := pending[..|pending| - 1], pending[|pending| - 1];
      SplitsDistinct(requests, init, t);
      HitsAndMisses(requests, init, t);
      if requests[last].key in t {
        DistinctSnoc(requests, Hits(requests, init, t), last);
      } else {
        DistinctSnoc(requests, Misses(requests, init, t), last);
      }
    }
  }

  function KeysOf(requests: seq<Request>, picks: seq<nat>): set<Key>
    requires InBatch(requests, picks)
  {
    set p | 0 <= p < |picks| :: requests[picks[p]].key
  }

  function Picked(requests: seq<Request>, picks: seq<nat>): seq<Request>
    requires InBatch(requests, picks)
  {
    seq(|picks|, p requires 0 <= p < |picks| => requests[picks[p]])
  }

  /** The table without the keys taken from it. */
  function Less(t: Table, gone: set<Key>): Table { t - gone }

  lemma PickOne(requests: seq<Request>, pending: seq<nat>, i: nat, t: Table)
    requires i < |pending| && InBatch(requests, pending)
    ensures Hits(requests, pending[..i + 1], t) ==
              Hits(requests, pending[..i], t) + (if requests[pending[i]].key in t then [pending[i]] else [])
    ensures Misses(requests, pending[..i + 1], t) ==
              Misses(requests, pending[..i], t) + (if requests[pending[i]].key in t then [] else [pending[i]])
  {
    assert pending[..i + 1][..i] == pending[..i];
  }

  /** Where the loop over one file is: `i` requests decided, of which the erased ones are gone from
      the map and recorded, and the kept ones moved down to the front of the list. */
  ghost predicate Sifting(requests: seq<Request>, before: seq<nat>, now: seq<nat>, i: nat, keep: nat, t: Table, map_: Table, erased: seq<nat>)
    requires InBatch(requests, before)
  {
    && keep <= i <= |before| == |now|
    && now[..keep] == Misses(requests, before[..i], t)
    && now[i..] == before[i..]
    && erased == Hits(requests, before[..i], t)
    && map_ == Less(t, KeysOf(requests, erased))
  }

  lemma SiftedKept(requests: seq<Request>, before: seq<nat>, now: seq<nat>, next: seq<nat>, i: nat, keep: nat, t: Table, map_: Table, erased: seq<nat>)
    requires DistinctKeys(requests, before) && Sifting(requests, before, now, i, keep, t, map_, erased)
    requires i < |before| && requests[before[i]].key !in map_
    requires keep < |now| && next == now[keep := before[i]]
    ensures Sifting(requests, before, next, i + 1, keep + 1, t, map_, erased)
  {
    PickOne(requests, before, i, t);
    NotYetTaken(requests, before, i, t);
    assert next[..keep + 1] == now[..keep] + [before[i]];
  }

  lemma SiftedErased(requests: seq<Request>, before: seq<nat>, now: seq<nat>, i: nat, keep: nat, t: Table, map_: Table, erased: seq<nat>)
    requires DistinctKeys(requests, before) && Sifting(requests, before, now, i, keep, t, map_, erased)
    requires i < |before| && requests[before[i]].key in map_
    ensures Sifting(requests, before, now, i + 1, keep, t, map_ - {requests[before[i]].key}, erased + [before[i]])
  {
    PickOne(requests, before, i, t);
    KeysOfSnoc(requests, erased, before[i]);
    assert now[i + 1..] == now[i..][1..] && before[i + 1..] == before[i..][1..];
  }

  lemma KeysOfSnoc(requests: seq<Request>, picks: seq<nat>, i: nat)
    requires InBatch(requests, picks) && i < |requests|
    ensures InBatch(requests, picks + [i])
    ensures KeysOf(requests, picks + [i]) == KeysOf(requests, picks) + {requests[i].key}
  {
    var more := picks + [i];
    assert more[|picks|] == i;
    assert forall p :: 0 <= p < |picks| ==> more[p] == picks[p];
  }

  /** A key not decided yet was not taken by an earlier request. */
  lemma NotYetTaken(requests: seq<Request>, before: seq<nat>, i: nat, t: Table)
    requires DistinctKeys(requests, before) && i < |before|
    ensures requests[before[i]].key !in KeysOf(requests, Hits(requests, before[..i], t))
  {
    var h := Hits(requests, before[..i], t);
    HitsAndMisses(requests, before[..i], t);
    forall p | 0 <= p < |h| ensures requests[h[p]].key != requests[before[i]].key {
      assert h[p] in h;
      var q :| 0 <= q < i && before[..i][q] == h[p];
      assert before[q] == h[p];
    }
  }

  lemma SetNext(s: seq<nat>, k: nat, x: nat)
    requires k < |s|
    ensures s[k := x][..k + 1] == s[..k] + [x]
    ensures forall j :: k < j <= |s| ==> s[k := x][j..] == s[j..]
  {
  }

  /** The scope guard of `step_over_file`: what was not decided moves down as it stands. */
  method Settle(list: seq<nat>, keep: nat, decided: nat) returns (left: seq<nat>)
    requires keep <= decided <= |list|
    ensures left == list[..keep] + list[decided..]
  {
    var pending, k, j := list, keep, decided;
    while j < |list|
      invariant decided <= j <= |list| == |pending| && k == keep + (j - decided)
      invariant pending[..k] == list[..keep] + list[decided..j]
      invariant pending[j..] == list[j..]
    {
      assert pending[j] == pending[j..][0] == list[j..][0];
      SetNext(pending, k, list[j]);
      assert list[decided..j + 1] == list[decided..j] + [list[j]];
      pending := pending[k := pending[j]];
      k, j := k + 1, j + 1;
    }
    left := pending[..k];
  }

  /** The loop of `step_over_file`, up to its end or to the exception. */
  method Sift(requests: seq<Request>, list: seq<nat>, t: Table, throwsAfter: Option<nat>)
    returns (after: Table, pending: seq<nat>, keep: nat, decided: nat, erased: seq<nat>, noted: bool, threw: bool)
    requires DistinctKeys(requests, list)
    ensures Sifting(requests, list, pending, decided, keep, t, after, erased)
    ensures !threw ==> decided == |list|
    ensures threw <==> |erased| > 0 && throwsAfter == Some(|erased|)
    ensures noted <==> |erased| > (if threw then 1 else 0)
  {
    pending, keep, decided, threw := list, 0, 0, false;
    after, erased, noted := t, [], false;
    assert t - {} == t;
    while decided < |list| && !threw
      invariant keep <= decided <= |list|
      invariant Sifting(requests, list, pending, decided, keep, t, after, erased)
      invariant threw <==> |erased| > 0 && throwsAfter == Some(|erased|)
      invariant noted <==> |erased| > (if threw then 1 else 0)
      decreases |list| - decided
    {
      var idx := pending[decided];
      assert idx == pending[decided..][0] == list[decided..][0];
      if requests[idx].key !in after {
        SiftedKept(requests, list, pending, pending[keep := idx], decided, keep, t, after, erased);
        pending := pending[keep := idx];
        keep := keep + 1;
      } else {
        SiftedErased(requests, list, pending, decided, keep, t, after, erased);
        after, erased := after - {requests[idx].key}, erased + [idx];
        if throwsAfter == Some(|erased|) { threw := true; } else { noted := true; }
      }
      decided := decided + 1;
    }
  }

  /** `step_over_file`: erase from one map every pending key it holds, record each the moment it is
      gone, and keep the rest in place. `throwsAfter`: an exception fires once that many are erased.
      Whatever fires, what is gone is recorded and what is not is still pending. */
  method StepOverFile(requests: seq<Request>, list: seq<nat>, t: Table, throwsAfter: Option<nat>)
    returns (after: Table, left: seq<nat>, erased: seq<nat>, noted: bool, threw: bool, ghost cut: nat)
    requires DistinctKeys(requests, list)
    ensures cut <= |list| && (!threw ==> cut == |list|) && erased == Hits(requests, list[..cut], t)
    ensures after == Less(t, KeysOf(requests, erased))
    ensures left == Misses(requests, list[..cut], t) + list[cut..]
    ensures threw <==> |erased| > 0 && throwsAfter == Some(|erased|)
    ensures noted <==> |erased| > (if threw then 1 else 0)
  {
    var pending, keep, decided;
    after, pending, keep, decided, erased, noted, threw := Sift(requests, list, t, throwsAfter);
    cut := decided;
    left := Settle(pending, keep, decided);
  }
}
