/**
  Resending what a call left unresolved, until a call completes.
*/
module Retry {
  import opened Basics
  import opened Batch
  import opened StoreState
  import opened Insertion
  import opened Deletion

  /** One call: what was asked, and what came back. */
  datatype Call = Call(requests: seq<Request>, progress: Progress, erased: seq<nat>, rest: seq<nat>, from: seq<File>)

  ghost predicate CallDid(s0: State, s: State, c: Call) {
    Batched(s0, s, c.requests, c.progress, c.erased, c.rest, c.from)
  }

  ghost predicate Names(rs: seq<Request>, k: Key) {
    exists i :: 0 <= i < |rs| && rs[i].key == k
  }

  ghost predicate Stored(files: Files, k: Key) {
    exists f :: Stores(files, f, k)
  }

  /** Each key is in one version at most. */
  ghost predicate AtMostOnce(files: Files) {
    forall f, g, k :: Stores(files, f, k) && Stores(files, g, k) ==> f == g
  }

  /** The store without these keys. */
  ghost predicate Lacks(before: Files, after: Files, gone: seq<Request>) {
    forall f, k :: (Stores(after, f, k) <==> Stores(before, f, k) && !Names(gone, k))
                   && (Stores(after, f, k) ==> after[f][k] == before[f][k])
  }

  lemma {:induction false} PicksName(requests: seq<Request>, picks: seq<nat>, k: Key)
    requires InBatch(requests, picks)
    ensures Names(Picked(requests, picks), k) <==> exists i :: i in picks && i < |requests| && requests[i].key == k
  {
    if Names(Picked(requests, picks), k) {
      var j :| 0 <= j < |picks| && requests[picks[j]].key == k;
      assert picks[j] in picks;
    }
    if i :| i in picks && i < |requests| && requests[i].key == k {
      var j :| 0 <= j < |picks| && picks[j] == i;
      assert Picked(requests, picks)[j].key == k;
    }
  }

  lemma NamesApart(requests: seq<Request>, erased: seq<nat>, rest: seq<nat>, i: nat, j: nat)
    requires Owed(requests, rest, erased) && i in erased && j in rest
    ensures i < |requests| && j < |requests| && requests[i].key != requests[j].key
  {
    OwedIsDistinct(requests, rest, erased);
    var p :| 0 <= p < |erased| && erased[p] == i;
    var q :| 0 <= q < |rest| && rest[q] == j;
  }

  lemma NamesSplit(requests: seq<Request>, erased: seq<nat>, rest: seq<nat>, k: Key)
    requires Owed(requests, rest, erased) && Names(requests, k)
    ensures exists i :: (i in erased || i in rest) && i < |requests| && requests[i].key == k
  {
    WorkingSetIsFirsts(requests);
    var i :| 0 <= i < |requests| && requests[i].key == k;
    var w :| w in WorkingSet(requests) && w < |requests| && requests[w].key == k;
    assert multiset(WorkingSet(requests))[w] > 0;
    assert multiset(rest)[w] + multiset(erased)[w] > 0;
    assert (w in erased || w in rest) && w < |requests| && requests[w].key == k;
  }

  lemma WorkingSetNames(requests: seq<Request>, erased: seq<nat>, rest: seq<nat>, k: Key)
    requires Owed(requests, rest, erased) && InBatch(requests, erased) && InBatch(requests, rest)
    ensures Names(requests, k) <==> Names(Picked(requests, erased), k) || Names(Picked(requests, rest), k)
    ensures !(Names(Picked(requests, erased), k) && Names(Picked(requests, rest), k))
  {
    PicksName(requests, erased, k);
    PicksName(requests, rest, k);
    if Names(requests, k) { NamesSplit(requests, erased, rest, k); }
    forall i, j | i in erased && j in rest ensures i < |requests| && j < |requests| && requests[i].key != requests[j].key {
      NamesApart(requests, erased, rest, i, j);
    }
  }

  /** One call, told by keys: the batch splits three ways; what was erased was stored and is gone
      everywhere, and nothing else is; what is absent was not stored. */
  lemma CallByKeys(s0: State, s: State, c: Call)
    requires CallDid(s0, s, c) && AtMostOnce(s0.files)
    ensures Lacks(s0.files, s.files, c.progress.erased) && AtMostOnce(s.files)
    ensures forall k :: Names(c.requests, k) <==>
              Names(c.progress.erased, k) || Names(c.progress.absent, k) || Names(c.progress.unresolved, k)
    ensures forall k :: Names(c.progress.erased, k) ==>
              Stored(s0.files, k) && !Names(c.progress.absent, k) && !Names(c.progress.unresolved, k)
    ensures forall k :: Names(c.progress.absent, k) ==> !Stored(s0.files, k)
  {
    var p := c.progress;
    LossesAreExact(s0, s, c.requests, p, c.erased, c.from);
    AbsentMeansNowhere(s0, s, c.requests, p, c.erased, c.rest, c.from);
    forall k ensures (Names(c.requests, k) <==> Names(p.erased, k) || Names(p.absent, k) || Names(p.unresolved, k))
                     && !(Names(p.erased, k) && (Names(p.absent, k) || Names(p.unresolved, k)))
    {
      WorkingSetNames(c.requests, c.erased, c.rest, k);
    }
    forall f, k ensures LostFrom(p, c.from, f, k) <==> Stores(s0.files, f, k) && Names(p.erased, k) {
      if Stores(s0.files, f, k) && Names(p.erased, k) {
        var j :| 0 <= j < |p.erased| && p.erased[j].key == k;
        assert Stores(s0.files, c.from[j], k);
      }
    }
  }

  /** A run of calls, each resending what the one before left unresolved, the last one complete. */
  ghost predicate Retried(ss: seq<State>, calls: seq<Call>) {
    && |calls| > 0 && |ss| == |calls| + 1
    && (forall i :: 0 <= i < |calls| ==> CallDid(ss[i], ss[i + 1], calls[i]))
    && (forall i :: 0 <= i < |calls| - 1 ==> calls[i + 1].requests == calls[i].progress.unresolved)
    && calls[|calls| - 1].progress.error.None?
  }

  ghost predicate ErasedBy(calls: seq<Call>, i: int, k: Key) {
    0 <= i < |calls| && Names(calls[i].progress.erased, k)
  }

  lemma WithoutTwice(a: Files, b: Files, c: Files, first: seq<Request>, second: seq<Request>, both: seq<Request>)
    requires Lacks(a, b, first) && Lacks(b, c, second)
    requires forall k :: Stored(a, k) ==> (Names(both, k) <==> Names(first, k) || Names(second, k))
    ensures Lacks(a, c, both)
  {
    forall f, k ensures (Stores(c, f, k) <==> Stores(a, f, k) && !Names(both, k)) && (Stores(c, f, k) ==> c[f][k] == a[f][k]) {
      assert Stores(b, f, k) <==> Stores(a, f, k) && !Names(first, k);
      assert Stores(c, f, k) <==> Stores(b, f, k) && !Names(second, k);
      if Stores(a, f, k) { assert Stored(a, k); }
    }
  }

  /** Retry convergence. With at most one copy of each key, resending only what is unresolved ends with
      the store a single fault-free call would have left; no key is erased twice, and the keys erased are
      exactly those of the batch that were stored. */
  lemma {:induction false} RetriesConverge(ss: seq<State>, calls: seq<Call>)
    requires Retried(ss, calls) && AtMostOnce(ss[0].files)
    ensures Lacks(ss[0].files, ss[|calls|].files, calls[0].requests)
    ensures forall k :: (exists i :: ErasedBy(calls, i, k)) <==> Names(calls[0].requests, k) && Stored(ss[0].files, k)
    ensures forall i, j, k :: ErasedBy(calls, i, k) && ErasedBy(calls, j, k) ==> i == j
    decreases |calls|
  {
    CallByKeys(ss[0], ss[1], calls[0]);
    if |calls| == 1 {
      OneCall(ss, calls);
    } else {
      var ss2, calls2 := ss[1..], calls[1..];
      TailRetried(ss, calls);
      RetriesConverge(ss2, calls2);
      assert ss2[|calls2|] == ss[|calls|] && ss2[0] == ss[1] && calls2[0] == calls[1];
      assert calls[0 + 1].requests == calls[0].progress.unresolved;
      WithoutTwice(ss[0].files, ss[1].files, ss[|calls|].files, calls[0].progress.erased, calls[1].requests, calls[0].requests);
      forall k ensures (exists i :: ErasedBy(calls, i, k)) <==> Names(calls[0].requests, k) && Stored(ss[0].files, k) {
        CombineErased(ss, calls, k);
      }
      forall i, j, k | ErasedBy(calls, i, k) && ErasedBy(calls, j, k) ensures i == j {
        CombineErased(ss, calls, k);
        CombineOnce(calls, i, j, k);
      }
    }
  }

  lemma OneCall(ss: seq<State>, calls: seq<Call>)
    requires Retried(ss, calls) && |calls| == 1 && AtMostOnce(ss[0].files)
    ensures Lacks(ss[0].files, ss[1].files, calls[0].requests)
    ensures forall k :: (exists i :: ErasedBy(calls, i, k)) <==> Names(calls[0].requests, k) && Stored(ss[0].files, k)
  {
    CallByKeys(ss[0], ss[1], calls[0]);
    var p := calls[0].progress;
    BatchIsPartitioned(ss[0], ss[1], calls[0].requests, p, calls[0].erased, calls[0].rest, calls[0].from);
    assert forall k :: !Names(p.unresolved, k);
    forall k ensures (exists i :: ErasedBy(calls, i, k)) <==> Names(p.erased, k) {
      if Names(p.erased, k) { assert ErasedBy(calls, 0, k); }
    }
    WithoutTwice(ss[0].files, ss[1].files, ss[1].files, p.erased, [], calls[0].requests) by {
      assert forall k :: !Names([], k);
    }
  }

  lemma TailRetried(ss: seq<State>, calls: seq<Call>)
    requires Retried(ss, calls) && |calls| > 1
    ensures Retried(ss[1..], calls[1..])
  {
    var ss2, calls2 := ss[1..], calls[1..];
    forall i | 0 <= i < |calls2| ensures CallDid(ss2[i], ss2[i + 1], calls2[i]) {
      assert CallDid(ss[i + 1], ss[i + 1 + 1], calls[i + 1]);
    }
    forall i | 0 <= i < |calls2| - 1 ensures calls2[i + 1].requests == calls2[i].progress.unresolved {
      assert calls[i + 1 + 1].requests == calls[i + 1].progress.unresolved;
    }
  }

  /** The keys erased by the first call and by the others. */
  lemma CombineErased(ss: seq<State>, calls: seq<Call>, k: Key)
    requires Retried(ss, calls) && |calls| > 1 && AtMostOnce(ss[0].files)
    requires (exists i :: ErasedBy(calls[1..], i, k)) <==> Names(calls[1].requests, k) && Stored(ss[1].files, k)
    ensures (exists i :: ErasedBy(calls, i, k)) <==> Names(calls[0].requests, k) && Stored(ss[0].files, k)
    ensures Names(calls[0].progress.erased, k) ==> !exists i :: ErasedBy(calls[1..], i, k)
  {
    CallByKeys(ss[0], ss[1], calls[0]);
    assert calls[0 + 1].requests == calls[0].progress.unresolved;
    StoredAfter(ss[0].files, ss[1].files, calls[0].progress.erased, k);
    ErasedSomewhere(calls, k);
  }

  lemma StoredAfter(a: Files, b: Files, gone: seq<Request>, k: Key)
    requires Lacks(a, b, gone)
    ensures Stored(b, k) <==> Stored(a, k) && !Names(gone, k)
  {
    if Stored(b, k) { var f :| Stores(b, f, k); assert Stores(a, f, k); }
    if Stored(a, k) && !Names(gone, k) { var f :| Stores(a, f, k); assert Stores(b, f, k); }
  }

  lemma CombineOnce(calls: seq<Call>, i: int, j: int, k: Key)
    requires |calls| > 1
    requires Names(calls[0].progress.erased, k) ==> !exists i :: ErasedBy(calls[1..], i, k)
    requires forall i, j :: ErasedBy(calls[1..], i, k) && ErasedBy(calls[1..], j, k) ==> i == j
    requires ErasedBy(calls, i, k) && ErasedBy(calls, j, k)
    ensures i == j
  {
    assert i > 0 ==> ErasedBy(calls[1..], i - 1, k);
    assert j > 0 ==> ErasedBy(calls[1..], j - 1, k);
  }

  lemma ErasedSomewhere(calls: seq<Call>, k: Key)
    requires |calls| > 0
    ensures (exists i :: ErasedBy(calls, i, k)) <==> Names(calls[0].progress.erased, k) || exists i :: ErasedBy(calls[1..], i, k)
  {
    if i :| ErasedBy(calls, i, k) {
      if i > 0 { assert ErasedBy(calls[1..], i - 1, k); }
    }
    if Names(calls[0].progress.erased, k) { assert ErasedBy(calls, 0, k); }
    if i :| ErasedBy(calls[1..], i, k) { assert ErasedBy(calls, i + 1, k); }
  }
}
