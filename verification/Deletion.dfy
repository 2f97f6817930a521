/**
  What a batch of deletions has done so far: which copies it took, what it still owes, and which
  versions it has cleared of the keys still pending.
*/
module Deletion {
  import opened Basics
  import opened Batch
  import opened StoreState
  import opened Insertion

  /** What can go wrong while a batch is applied. */
  datatype Faults = Faults(
    refuses: set<File>,          // versions that do not open
    throws: map<File, nat>,      // an exception after that many erasures in a version
    unlistable: set<nat>)        // classes whose catalogue cannot be listed

  function ThrowsIn(faults: Faults, f: File): Option<nat> {
    if f in faults.throws then Some(faults.throws[f]) else None
  }

  /** The keys taken from one version. */
  function TakenFrom(requests: seq<Request>, erased: seq<nat>, from: seq<File>, f: File): set<Key>
    requires InBatch(requests, erased) && |from| == |erased|
  {
    set j | 0 <= j < |erased| && from[j] == f :: requests[erased[j]].key
  }

  /** Exactly one copy per erased request is gone, from the version recorded for it, and nothing else. */
  ghost predicate Took(before: Files, after: Files, requests: seq<Request>, erased: seq<nat>, from: seq<File>) {
    && InBatch(requests, erased) && |from| == |erased| && after.Keys == before.Keys
    && (forall j :: 0 <= j < |erased| ==> Stores(before, from[j], requests[erased[j]].key))
    && (forall f :: f in before ==> after[f] == before[f] - TakenFrom(requests, erased, from, f))
  }

  /** What is pending and what was erased are the distinct keys of the batch, each once. */
  ghost predicate Owed(requests: seq<Request>, pending: seq<nat>, erased: seq<nat>) {
    multiset(pending) + multiset(erased) == multiset(WorkingSet(requests))
  }

  /** None of these versions held a key that is still pending. */
  ghost predicate Clear(requests: seq<Request>, pending: seq<nat>, before: Files, fs: set<File>) {
    forall f, p :: f in fs && f in before && 0 <= p < |pending| && pending[p] < |requests| ==> requests[pending[p]].key !in before[f]
  }

  function Repeated(f: File, n: nat): (r: seq<File>)
    ensures |r| == n && forall j :: 0 <= j < n ==> r[j] == f
  {
    seq(n, _ => f)
  }

  // ------------------------------------------------------------------
  // Parts of the working set
  // ------------------------------------------------------------------

  lemma {:induction false} AscendingOnce(s: seq<nat>, x: nat)
    requires Ascending(s)
    ensures multiset(s)[x] <= 1
  {
    if s != [] {
      var init, last := s[..|s| - 1], s[|s| - 1];
      assert s == init + [last];
      AscendingOnce(init, x);
      assert last !in init;
    }
  }

  lemma CountTwice(s: seq<nat>, p: nat, q: nat)
    requires p < q < |s| && s[p] == s[q]
    ensures multiset(s)[s[p]] >= 2
  {
    assert s == s[..p] + [s[p]] + s[p + 1..q] + [s[q]] + s[q + 1..];
  }

  lemma PairIsDistinct(requests: seq<Request>, part: seq<nat>, p: nat, q: nat)
    requires multiset(part) <= multiset(WorkingSet(requests)) && Ascending(WorkingSet(requests))
    requires p < q < |part|
    requires part[p] < |requests| && First(requests, part[p]) && part[q] < |requests| && First(requests, part[q])
    ensures requests[part[p]].key != requests[part[q]].key
  {
    AscendingOnce(WorkingSet(requests), part[p]);
    if part[p] == part[q] { CountTwice(part, p, q); }
  }

  /** Anything drawn from the working set names distinct keys. */
  lemma PartIsDistinct(requests: seq<Request>, part: seq<nat>)
    requires multiset(part) <= multiset(WorkingSet(requests))
    ensures DistinctKeys(requests, part)
    ensures forall i :: i in part ==> i < |requests| && First(requests, i)
  {
    WorkingSetIsFirsts(requests);
    forall i | i in part ensures i < |requests| && First(requests, i) {
      assert multiset(part)[i] > 0;
      assert i in WorkingSet(requests);
    }
    assert forall p :: 0 <= p < |part| ==> part[p] in part;
    FirstsHold(requests, |requests|);
    forall p, q | 0 <= p < q < |part| ensures requests[part[p]].key != requests[part[q]].key {
      PairIsDistinct(requests, part, p, q);
    }
  }

  lemma OwedIsDistinct(requests: seq<Request>, pending: seq<nat>, erased: seq<nat>)
    requires Owed(requests, pending, erased)
    ensures DistinctKeys(requests, erased + pending)
    ensures DistinctKeys(requests, pending) && DistinctKeys(requests, erased)
    ensures forall p, j :: 0 <= p < |pending| && 0 <= j < |erased| ==> requests[pending[p]].key != requests[erased[j]].key
  {
    var all := erased + pending;
    PartIsDistinct(requests, all);
    PartIsDistinct(requests, pending);
    PartIsDistinct(requests, erased);
    forall p, j | 0 <= p < |pending| && 0 <= j < |erased| ensures requests[pending[p]].key != requests[erased[j]].key {
      assert all[j] == erased[j] && all[|erased| + p] == pending[p];
    }
  }

  // ------------------------------------------------------------------
  // One version visited
  // ------------------------------------------------------------------

  lemma TakenMore(requests: seq<Request>, erased: seq<nat>, from: seq<File>, hits: seq<nat>, f: File, g: File)
    requires InBatch(requests, erased) && |from| == |erased| && InBatch(requests, hits)
    ensures InBatch(requests, erased + hits)
    ensures TakenFrom(requests, erased + hits, from + Repeated(f, |hits|), g) ==
            TakenFrom(requests, erased, from, g) + (if g == f then KeysOf(requests, hits) else {})
  {
    var all, src := erased + hits, from + Repeated(f, |hits|);
    forall k ensures k in TakenFrom(requests, all, src, g) <==>
                     k in TakenFrom(requests, erased, from, g) || (g == f && k in KeysOf(requests, hits)) {
      if k in TakenFrom(requests, all, src, g) {
        var j :| 0 <= j < |all| && src[j] == g && requests[all[j]].key == k;
        if j < |erased| { assert from[j] == g && erased[j] == all[j]; } else { assert hits[j - |erased|] == all[j]; }
      }
      if k in TakenFrom(requests, erased, from, g) {
        var j :| 0 <= j < |erased| && from[j] == g && requests[erased[j]].key == k;
        assert src[j] == g && all[j] == erased[j];
      }
      if g == f && k in KeysOf(requests, hits) {
        var j :| 0 <= j < |hits| && requests[hits[j]].key == k;
        assert src[|erased| + j] == f && all[|erased| + j] == hits[j];
      }
    }
  }

  lemma VisitTook(requests: seq<Request>, before: Files, a: Files, erased: seq<nat>, from: seq<File>, f: File, hits: seq<nat>)
    requires Took(before, a, requests, erased, from) && f in a && InBatch(requests, hits)
    requires forall i :: i in hits ==> i < |requests| && requests[i].key in a[f]
    ensures Took(before, a[f := Less(a[f], KeysOf(requests, hits))], requests, erased + hits, from + Repeated(f, |hits|))
  {
    var b := a[f := Less(a[f], KeysOf(requests, hits))];
    var all, src := erased + hits, from + Repeated(f, |hits|);
    forall g | g in before ensures b[g] == before[g] - TakenFrom(requests, all, src, g) {
      TakenMore(requests, erased, from, hits, f, g);
    }
    forall j | 0 <= j < |all| ensures all[j] < |requests| && Stores(before, src[j], requests[all[j]].key) {
      if j < |erased| {
        assert all[j] == erased[j] && src[j] == from[j];
      } else {
        assert all[j] == hits[j - |erased|] && hits[j - |erased|] in hits;
      }
    }
  }

  lemma VisitOwed(requests: seq<Request>, pending: seq<nat>, erased: seq<nat>, cut: nat, t: Table)
    requires Owed(requests, pending, erased) && cut <= |pending| && InBatch(requests, pending)
    ensures Owed(requests, Misses(requests, pending[..cut], t) + pending[cut..], erased + Hits(requests, pending[..cut], t))
  {
    HitsAndMisses(requests, pending[..cut], t);
    assert pending == pending[..cut] + pending[cut..];
  }

  /** Shrinking the list keeps what was cleared. */
  lemma ClearOfFewer(requests: seq<Request>, pending: seq<nat>, fewer: seq<nat>, before: Files, fs: set<File>)
    requires Clear(requests, pending, before, fs)
    requires forall i :: i in fewer ==> i in pending
    ensures Clear(requests, fewer, before, fs)
  {
    forall f, p | f in fs && f in before && 0 <= p < |fewer| && fewer[p] < |requests| ensures requests[fewer[p]].key !in before[f] {
      assert fewer[p] in fewer;
      var q :| 0 <= q < |pending| && pending[q] == fewer[p];
    }
  }

  lemma VisitClears(requests: seq<Request>, before: Files, a: Files, pending: seq<nat>, erased: seq<nat>, from: seq<File>, f: File)
    requires Took(before, a, requests, erased, from) && Owed(requests, pending, erased) && f in a && InBatch(requests, pending)
    ensures Clear(requests, Misses(requests, pending, a[f]), before, {f})
  {
    OwedIsDistinct(requests, pending, erased);
    HitsAndMisses(requests, pending, a[f]);
    var left := Misses(requests, pending, a[f]);
    forall p | 0 <= p < |left| ensures left[p] < |requests| && requests[left[p]].key !in before[f] {
      assert left[p] in left;
      var q :| 0 <= q < |pending| && pending[q] == left[p];
      assert requests[left[p]].key !in TakenFrom(requests, erased, from, f);
    }
  }

  // ------------------------------------------------------------------
  // The state of an instance along a batch
  // ------------------------------------------------------------------

  /** A deletion changes no catalogue and no latch. */
  ghost predicate Framed(s0: State, s: State) {
    && s.catalogs == s0.catalogs && s.highest == s0.highest && s.rotations == s0.rotations
    && s.integrity == s0.integrity && s.cleanup == s0.cleanup
    && s.durable <= s0.durable
  }

  /** Some keys gone from one version. `noted`: the register heard of it. */
  function Erased(s: State, f: File, t: Table, n: nat, noted: bool): State {
    s.(files := s.files[f := t],
       count := s.count - n,
       durable := if n > 0 then s.durable - {f} else s.durable,
       dirty := if noted then s.dirty + {f} else s.dirty)
  }

  lemma ErasedIsShaped(s: State, f: File, t: Table, n: nat, noted: bool)
    requires Shaped(s) && f in s.files
    ensures Shaped(Erased(s, f, t, n, noted)) && Framed(s, Erased(s, f, t, n, noted))
  {
  }

  lemma ErasedIsCounted(s: State, f: File, gone: set<Key>, n: nat, noted: bool)
    requires Shaped(s) && f in s.files && Counted(s) && gone <= s.files[f].Keys && n == |gone|
    ensures Counted(Erased(s, f, Less(s.files[f], gone), n, noted))
  {
    WeightSet(s.files, f, Less(s.files[f], gone));
    var t := s.files[f];
    assert Less(t, gone).Keys == t.Keys - gone;
    assert |Less(t, gone).Keys| == |t.Keys| - |gone|;
    assert |Less(t, gone)| == |Less(t, gone).Keys| && |t| == |t.Keys|;
  }

  lemma {:induction false} DistinctKeysCount(requests: seq<Request>, picks: seq<nat>)
    requires DistinctKeys(requests, picks)
    ensures |KeysOf(requests, picks)| == |picks|
  {
    if picks != [] {
      var init, last := picks[..|picks| - 1], picks[|picks| - 1];
      assert picks == init + [last];
      DistinctKeysCount(requests, init);
      KeysOfSnoc(requests, init, last);
      assert requests[last].key !in KeysOf(requests, init);
    }
  }

  /** The register after a version was visited. It misses one exactly when that version was clean and
      the exception came between its only erasure and its note. */
  lemma ErasedIsRegistered(s: State, f: File, t: Table, n: nat, threw: bool)
    requires Shaped(s) && Registered(s) && f in s.files && (threw ==> n > 0)
    ensures Shaped(Erased(s, f, t, n, n > (if threw then 1 else 0)))
    ensures Registered(Erased(s, f, t, n, n > (if threw then 1 else 0))) <==>
              !(threw && n == 1 && !IsActive(s, f) && f !in s.dirty)
  {
    var s2 := Erased(s, f, t, n, n > (if threw then 1 else 0));
    ErasedIsShaped(s, f, t, n, n > (if threw then 1 else 0));
    if threw && n == 1 && !IsActive(s, f) && f !in s.dirty {
      assert f in s2.files && f !in s2.durable && f !in s2.dirty && !IsActive(s2, f);
    } else {
      forall g | g in s2.files && g !in s2.durable ensures g in s2.dirty || IsActive(s2, g) {
        if g !in s.durable { assert g in s.dirty || IsActive(s, g); }
      }
    }
  }

  /** A batch under way. `ok`: every version in `visited` was read. */
  ghost predicate Underway(s0: State, s: State, requests: seq<Request>, pending: seq<nat>, erased: seq<nat>, from: seq<File>,
                           ok: bool, visited: set<File>) {
    && Shaped(s) && Framed(s0, s)
    && Took(s0.files, s.files, requests, erased, from) && Owed(requests, pending, erased)
    && (Counted(s0) ==> Counted(s))
    && (ok ==> Clear(requests, pending, s0.files, visited))
  }

  lemma UnderwayAtFirst(s: State, requests: seq<Request>)
    requires Shaped(s)
    ensures Underway(s, s, requests, WorkingSet(requests), [], [], true, {})
  {
  }

  /** What is left after a visit was in nothing visited before, nor in this version if it was read to the end. */
  lemma VisitStaysClear(requests: seq<Request>, before: Files, a: Files, pending: seq<nat>, erased: seq<nat>, from: seq<File>,
                        visited: set<File>, f: File, cut: nat, read: bool)
    requires Took(before, a, requests, erased, from) && Owed(requests, pending, erased) && f in a && InBatch(requests, pending)
    requires Clear(requests, pending, before, visited) && cut <= |pending| && (read ==> cut == |pending|)
    ensures Clear(requests, Misses(requests, pending[..cut], a[f]) + pending[cut..], before, if read then visited + {f} else visited)
  {
    var left := Misses(requests, pending[..cut], a[f]) + pending[cut..];
    HitsAndMisses(requests, pending[..cut], a[f]);
    ClearOfFewer(requests, pending, left, before, visited);
    if read {
      assert pending[..cut] == pending && pending[cut..] == [];
      assert left == Misses(requests, pending, a[f]);
      VisitClears(requests, before, a, pending, erased, from, f);
    }
  }

  /** One more version visited, as far as `cut`. */
  lemma UnderwayOn(s0: State, s: State, requests: seq<Request>, pending: seq<nat>, erased: seq<nat>, from: seq<File>,
                   visited: set<File>, f: File, cut: nat, noted: bool, read: bool)
    requires Underway(s0, s, requests, pending, erased, from, true, visited)
    requires f in s.files && cut <= |pending| && InBatch(requests, pending) && (read ==> cut == |pending|)
    ensures var hits := Hits(requests, pending[..cut], s.files[f]);
            var left := Misses(requests, pending[..cut], s.files[f]) + pending[cut..];
            Underway(s0, Erased(s, f, Less(s.files[f], KeysOf(requests, hits)), |hits|, noted), requests, left,
                     erased + hits, from + Repeated(f, |hits|), true, if read then visited + {f} else visited)
  {
    var hits := Hits(requests, pending[..cut], s.files[f]);
    var left := Misses(requests, pending[..cut], s.files[f]) + pending[cut..];
    HitsAndMisses(requests, pending[..cut], s.files[f]);
    VisitTook(requests, s0.files, s.files, erased, from, f, hits);
    VisitOwed(requests, pending, erased, cut, s.files[f]);
    ErasedIsShaped(s, f, Less(s.files[f], KeysOf(requests, hits)), |hits|, noted);
    UnderwayCounts(s, requests, pending, erased, hits, cut, f, noted);
    VisitStaysClear(requests, s0.files, s.files, pending, erased, from, visited, f, cut, read);
  }

  lemma UnderwayCounts(s: State, requests: seq<Request>, pending: seq<nat>, erased: seq<nat>, hits: seq<nat>, cut: nat, f: File, noted: bool)
    requires Shaped(s) && f in s.files && cut <= |pending| && InBatch(requests, pending) && Owed(requests, pending, erased)
    requires hits == Hits(requests, pending[..cut], s.files[f])
    ensures Counted(s) ==> Counted(Erased(s, f, Less(s.files[f], KeysOf(requests, hits)), |hits|, noted))
  {
    OwedIsDistinct(requests, pending, erased);
    assert DistinctKeys(requests, pending[..cut]);
    SplitsDistinct(requests, pending[..cut], s.files[f]);
    DistinctKeysCount(requests, hits);
    HitsAndMisses(requests, pending[..cut], s.files[f]);
    assert forall p :: 0 <= p < |hits| ==> hits[p] in hits;
    if Counted(s) { ErasedIsCounted(s, f, KeysOf(requests, hits), |hits|, noted); }
  }

  // ------------------------------------------------------------------
  // The active versions
  // ------------------------------------------------------------------

  ghost function Actives(s: State): set<File>
    requires Shaped(s)
  {
    set c: nat | c < |s.catalogs| && |s.catalogs[c]| > 0 :: ActiveOf(s, c)
  }

  lemma TookOne(requests: seq<Request>, before: Files, a: Files, erased: seq<nat>, from: seq<File>, i: nat, f: File)
    requires Took(before, a, requests, erased, from) && f in a && i < |requests| && requests[i].key in a[f]
    ensures Took(before, a[f := a[f] - {requests[i].key}], requests, erased + [i], from + [f])
  {
    assert KeysOf(requests, [i]) == {requests[i].key} by { assert [i][0] == i; }
    VisitTook(requests, before, a, erased, from, f, [i]);
    assert Repeated(f, 1) == [f];
  }

  lemma ErasedOneIsCounted(s: State, f: File, key: Key)
    requires Shaped(s) && f in s.files && Counted(s) && key in s.files[f]
    ensures Counted(Erased(s, f, s.files[f] - {key}, 1, false))
  {
    ErasedIsCounted(s, f, {key}, 1, false);
  }

  lemma OwedOne(requests: seq<Request>, kept: seq<nat>, i: nat, rest: seq<nat>, erased: seq<nat>)
    requires Owed(requests, kept + [i] + rest, erased)
    ensures Owed(requests, kept + rest, erased + [i])
  {
  }

  lemma OwedNames(requests: seq<Request>, kept: seq<nat>, i: nat, rest: seq<nat>, erased: seq<nat>)
    requires Owed(requests, kept + [i] + rest, erased)
    ensures i < |requests| && i in kept + [i] + rest
  {
    OwedIsDistinct(requests, kept + [i] + rest, erased);
    assert (kept + [i] + rest)[|kept|] == i;
  }

  /** One request gone from one version. */
  lemma UnderwayOne(s0: State, s: State, requests: seq<Request>, kept: seq<nat>, i: nat, rest: seq<nat>, erased: seq<nat>,
                    from: seq<File>, f: File)
    requires Underway(s0, s, requests, kept + [i] + rest, erased, from, true, {})
    requires f in s.files && i < |requests| && requests[i].key in s.files[f]
    ensures Underway(s0, Erased(s, f, s.files[f] - {requests[i].key}, 1, false), requests, kept + rest, erased + [i], from + [f], true, {})
  {
    TookOne(requests, s0.files, s.files, erased, from, i, f);
    OwedOne(requests, kept, i, rest, erased);
    ErasedIsShaped(s, f, s.files[f] - {requests[i].key}, 1, false);
    if Counted(s) { ErasedOneIsCounted(s, f, requests[i].key); }
  }

  /** A pending key that a version does not hold now, it did not hold at the start. */
  lemma MissIsClear(s0: State, s: State, requests: seq<Request>, pending: seq<nat>, erased: seq<nat>, from: seq<File>, i: nat, f: File)
    requires Underway(s0, s, requests, pending, erased, from, true, {})
    requires i in pending && i < |requests| && f in s.files && requests[i].key !in s.files[f]
    ensures requests[i].key !in s0.files[f]
  {
    OwedIsDistinct(requests, pending, erased);
    var p :| 0 <= p < |pending| && pending[p] == i;
    assert requests[i].key !in TakenFrom(requests, erased, from, f);
  }

  lemma ErasedActiveIsRegistered(s: State, c: nat, t: Table)
    requires Shaped(s) && c < |s.catalogs| && Registered(s)
    ensures Shaped(Erased(s, ActiveOf(s, c), t, 1, false)) && Registered(Erased(s, ActiveOf(s, c), t, 1, false))
  {
    ActiveIsThere(s, c);
    var s2 := Erased(s, ActiveOf(s, c), t, 1, false);
    forall g | g in s2.files && g !in s2.durable ensures g in s2.dirty || IsActive(s2, g) {
      if g != ActiveOf(s, c) { assert g in s.files && g !in s.durable; }
    }
  }

  /** A request that no active version holds stays pending. */
  lemma StillPending(s0: State, s: State, requests: seq<Request>, pending: seq<nat>, erased: seq<nat>, from: seq<File>,
                     kept: seq<nat>, i: nat)
    requires Shaped(s0) && Underway(s0, s, requests, pending, erased, from, true, {})
    requires i in pending && i < |requests|
    requires forall f :: f in Actives(s) && f in s.files ==> requests[i].key !in s.files[f]
    requires Clear(requests, kept, s0.files, Actives(s0))
    ensures Clear(requests, kept + [i], s0.files, Actives(s0))
  {
    assert Actives(s) == Actives(s0);
    forall f | f in Actives(s0) && f in s0.files ensures requests[i].key !in s0.files[f] {
      MissIsClear(s0, s, requests, pending, erased, from, i, f);
    }
  }

  // ------------------------------------------------------------------
  // Every version
  // ------------------------------------------------------------------

  lemma LastIsActive(s: State, c: nat)
    requires Shaped(s) && c < |s.catalogs|
    ensures |s.catalogs[c]| > 0 && ActiveOf(s, c) in Actives(s)
  {
    assert CatalogOk(s.catalogs[c], s.highest[c]);
  }

  /** What a key that is still pending at the end of a batch that read everything means. */
  lemma AbsentEverywhere(s0: State, s: State, requests: seq<Request>, pending: seq<nat>, erased: seq<nat>, from: seq<File>)
    requires Shaped(s0) && Underway(s0, s, requests, pending, erased, from, true, s0.files.Keys)
    ensures forall i, f :: i in pending && i < |requests| ==> !Stores(s0.files, f, requests[i].key)
  {
    forall i, f | i in pending && i < |requests| ensures !Stores(s0.files, f, requests[i].key) {
      if f in s0.files {
        var p :| 0 <= p < |pending| && pending[p] == i;
        assert requests[pending[p]].key !in s0.files[f];
      }
    }
  }

  /** Nothing goes wrong in these versions. */
  ghost predicate Quiet(faults: Faults, files: Files) {
    faults.unlistable == {} && forall f :: f in files ==> f !in faults.refuses && f !in faults.throws
  }

  /** No exception comes between the first erasure in a version and its note. */
  ghost predicate NeverEarly(faults: Faults) {
    forall f :: ThrowsIn(faults, f) != Some(1)
  }

  // ------------------------------------------------------------------
  // Phase 0: one request after another, the list shrinking in place
  // ------------------------------------------------------------------

  ghost predicate PhaseOne(s0: State, s: State, requests: seq<Request>, pending: seq<nat>, keep: nat, i: nat, erased: seq<nat>, from: seq<File>) {
    && keep <= i <= |pending| && Shaped(s0)
    && Underway(s0, s, requests, pending[..keep] + pending[i..], erased, from, true, {})
    && Clear(requests, pending[..keep], s0.files, Actives(s0))
    && (Registered(s0) ==> Registered(s))
    && (forall f :: f in from ==> f in Actives(s0))
  }

  lemma PhaseOneBegins(s0: State, s: State, requests: seq<Request>, pending: seq<nat>)
    requires Shaped(s0) && Underway(s0, s, requests, pending, [], [], true, {}) && s == s0
    ensures PhaseOne(s0, s, requests, pending, 0, 0, [], [])
  {
    assert pending[..0] + pending[0..] == pending;
  }

  lemma PhaseOneEnds(s0: State, s: State, requests: seq<Request>, pending: seq<nat>, keep: nat, erased: seq<nat>, from: seq<File>)
    requires PhaseOne(s0, s, requests, pending, keep, |pending|, erased, from)
    ensures Underway(s0, s, requests, pending[..keep], erased, from, true, Actives(s0))
    ensures Registered(s0) ==> Registered(s)
    ensures forall f :: f in from ==> f in Actives(s0)
  {
    assert pending[..keep] + pending[|pending|..] == pending[..keep];
  }

  lemma NextOf(kept: seq<nat>, rest: seq<nat>, x: nat, tail: seq<nat>)
    requires rest == [x] + tail
    ensures kept + rest == kept + [x] + tail
  {
  }

  lemma PhaseOneNow(s0: State, s: State, requests: seq<Request>, pending: seq<nat>, keep: nat, i: nat, erased: seq<nat>, from: seq<File>)
    requires PhaseOne(s0, s, requests, pending, keep, i, erased, from) && i < |pending|
    ensures Underway(s0, s, requests, pending[..keep] + [pending[i]] + pending[i + 1..], erased, from, true, {})
    ensures pending[i] < |requests|
  {
    NextOf(pending[..keep], pending[i..], pending[i], pending[i + 1..]);
    OwedNames(requests, pending[..keep], pending[i], pending[i + 1..], erased);
  }

  lemma PhaseOneErased(s0: State, s: State, requests: seq<Request>, pending: seq<nat>, keep: nat, i: nat, erased: seq<nat>, from: seq<File>, f: File)
    requires PhaseOne(s0, s, requests, pending, keep, i, erased, from) && i < |pending|
    requires f in Actives(s) && f in s.files && pending[i] < |requests| && requests[pending[i]].key in s.files[f]
    ensures PhaseOne(s0, Erased(s, f, s.files[f] - {requests[pending[i]].key}, 1, false), requests, pending, keep, i + 1,
                   erased + [pending[i]], from + [f])
  {
    PhaseOneNow(s0, s, requests, pending, keep, i, erased, from);
    UnderwayOne(s0, s, requests, pending[..keep], pending[i], pending[i + 1..], erased, from, f);
    if Registered(s) { ErasedActiveIsRegistered(s, f.cls, s.files[f] - {requests[pending[i]].key}); }
  }

  lemma PhaseOneKept(s0: State, s: State, requests: seq<Request>, pending: seq<nat>, keep: nat, i: nat, erased: seq<nat>, from: seq<File>)
    requires PhaseOne(s0, s, requests, pending, keep, i, erased, from) && i < |pending| && pending[i] < |requests|
    requires forall f :: f in Actives(s) && f in s.files ==> requests[pending[i]].key !in s.files[f]
    ensures PhaseOne(s0, s, requests, pending[keep := pending[i]], keep + 1, i + 1, erased, from)
  {
    PhaseOneNow(s0, s, requests, pending, keep, i, erased, from);
    SetNext(pending, keep, pending[i]);
    StillPending(s0, s, requests, pending[..keep] + [pending[i]] + pending[i + 1..], erased, from, pending[..keep], pending[i]);
  }

  // ------------------------------------------------------------------
  // A whole batch
  // ------------------------------------------------------------------

  /** `deletion_progress`. */
  datatype Progress = Progress(erased: seq<Request>, absent: seq<Request>, unresolved: seq<Request>, error: Option<Error>)

  /** `refuse_deletions`: everything still owed, and why. */
  method RefuseDeletions(requests: seq<Request>, why: Error) returns (p: Progress)
    ensures p.erased == [] && p.absent == [] && p.error == Some(why)
    ensures InBatch(requests, WorkingSet(requests)) && p.unresolved == Picked(requests, WorkingSet(requests))
  {
    WorkingSetIsFirsts(requests);
    var pending := WorkingSetOf(requests);
    p := Progress([], [], Picked(requests, pending), Some(why));
  }

  /** What a call did to the store and what it told the caller. */
  ghost predicate Batched(s0: State, s: State, requests: seq<Request>, p: Progress, erased: seq<nat>, rest: seq<nat>, from: seq<File>) {
    && Shaped(s0) && InBatch(requests, erased) && InBatch(requests, rest)
    && Underway(s0, s, requests, rest, erased, from, p.error.None?, s0.files.Keys)
    && p.erased == Picked(requests, erased)
    && p.absent == (if p.error.None? then Picked(requests, rest) else [])
    && p.unresolved == (if p.error.None? then [] else Picked(requests, rest))
  }

  lemma {:induction false} SamePicks(requests: seq<Request>, a: seq<nat>, b: seq<nat>)
    requires InBatch(requests, a) && InBatch(requests, b) && multiset(a) == multiset(b)
    ensures multiset(Picked(requests, a)) == multiset(Picked(requests, b))
    decreases |a|
  {
    if a == [] {
      assert |multiset(b)| == |b| == 0;
    } else {
      var init, x := a[..|a| - 1], a[|a| - 1];
      assert a == init + [x];
      assert multiset(a)[x] > 0;
      assert x in b;
      var b2 := DropOne(requests, b, x);
      assert multiset(init) == multiset(a) - multiset{x};
      SamePicks(requests, init, b2);
      assert Picked(requests, a) == Picked(requests, init) + [requests[x]];
    }
  }

  lemma PickedSplits(requests: seq<Request>, a: seq<nat>, b: seq<nat>, w: seq<nat>)
    requires InBatch(requests, a) && InBatch(requests, b) && InBatch(requests, w)
    requires multiset(a) + multiset(b) == multiset(w)
    ensures multiset(Picked(requests, a)) + multiset(Picked(requests, b)) == multiset(Picked(requests, w))
  {
    SamePicks(requests, a + b, w);
    assert Picked(requests, a + b) == Picked(requests, a) + Picked(requests, b);
  }

  lemma DropOne(requests: seq<Request>, s: seq<nat>, x: nat) returns (t: seq<nat>)
    requires x in s && InBatch(requests, s)
    ensures multiset(s) == multiset(t) + multiset{x} && InBatch(requests, t)
    ensures multiset(Picked(requests, s)) == multiset(Picked(requests, t)) + multiset{requests[x]}
  {
    var i :| 0 <= i < |s| && s[i] == x;
    t := s[..i] + s[i + 1..];
    assert s == s[..i] + [x] + s[i + 1..];
    PickedWithout(requests, s, i);
  }

  lemma PickedWithout(requests: seq<Request>, s: seq<nat>, i: nat)
    requires InBatch(requests, s) && i < |s|
    ensures InBatch(requests, s[..i] + s[i + 1..])
    ensures multiset(Picked(requests, s)) == multiset(Picked(requests, s[..i] + s[i + 1..])) + multiset{requests[s[i]]}
  {
    var ps := Picked(requests, s);
    assert Picked(requests, s[..i] + s[i + 1..]) == ps[..i] + ps[i + 1..];
    assert ps == ps[..i] + [requests[s[i]]] + ps[i + 1..];
  }

  /** The deletion partition. Whatever refused to open and whenever an exception fired: what was erased,
      what is absent and what is unresolved are the first occurrences of the distinct keys, each once. */
  lemma BatchIsPartitioned(s0: State, s: State, requests: seq<Request>, p: Progress, erased: seq<nat>, rest: seq<nat>, from: seq<File>)
    requires Batched(s0, s, requests, p, erased, rest, from)
    ensures InBatch(requests, WorkingSet(requests))
    ensures multiset(p.erased) + multiset(p.absent) + multiset(p.unresolved) == multiset(Picked(requests, WorkingSet(requests)))
    ensures p.error.Some? ==> p.absent == []
    ensures p.error.None? ==> p.unresolved == []
  {
    WorkingSetIsFirsts(requests);
    PickedSplits(requests, rest, erased, WorkingSet(requests));
    ListsAddUp(p, Picked(requests, erased), Picked(requests, rest));
  }

  lemma ListsAddUp(p: Progress, done: seq<Request>, left: seq<Request>)
    requires p.erased == done && p.absent == (if p.error.None? then left else []) && p.unresolved == (if p.error.None? then [] else left)
    ensures multiset(p.erased) + multiset(p.absent) + multiset(p.unresolved) == multiset(left) + multiset(done)
  {
  }

  /** A key called absent is in no version of any class. */
  lemma AbsentMeansNowhere(s0: State, s: State, requests: seq<Request>, p: Progress, erased: seq<nat>, rest: seq<nat>, from: seq<File>)
    requires Batched(s0, s, requests, p, erased, rest, from)
    ensures forall r, f :: r in p.absent ==> !Stores(s0.files, f, r.key)
  {
    if p.error.None? {
      AbsentEverywhere(s0, s, requests, rest, erased, from);
      forall r, f | r in p.absent ensures !Stores(s0.files, f, r.key) {
        var j :| 0 <= j < |rest| && requests[rest[j]] == r;
        assert rest[j] in rest;
      }
    }
  }

  ghost predicate LostFrom(p: Progress, from: seq<File>, f: File, k: Key) {
    exists j :: 0 <= j < |from| && j < |p.erased| && from[j] == f && p.erased[j].key == k
  }

  /** The store lost one copy of each erased key, from the version recorded for it, and nothing else. */
  lemma LossesAreExact(s0: State, s: State, requests: seq<Request>, p: Progress, erased: seq<nat>, from: seq<File>)
    requires Took(s0.files, s.files, requests, erased, from) && p.erased == Picked(requests, erased)
    ensures |p.erased| == |from| && forall j :: 0 <= j < |from| ==> Stores(s0.files, from[j], p.erased[j].key) && !Stores(s.files, from[j], p.erased[j].key)
    ensures forall f, k :: Stores(s.files, f, k) <==> Stores(s0.files, f, k) && !LostFrom(p, from, f, k)
    ensures forall f, k :: Stores(s.files, f, k) ==> s.files[f][k] == s0.files[f][k]
  {
    forall f, k ensures k in TakenFrom(requests, erased, from, f) <==> LostFrom(p, from, f, k) {
      if k in TakenFrom(requests, erased, from, f) {
        var j :| 0 <= j < |erased| && from[j] == f && requests[erased[j]].key == k;
        assert p.erased[j].key == k;
      }
      if LostFrom(p, from, f, k) {
        var j :| 0 <= j < |from| && j < |p.erased| && from[j] == f && p.erased[j].key == k;
        assert requests[erased[j]].key == k;
      }
    }
    forall j | 0 <= j < |from| ensures Stores(s0.files, from[j], p.erased[j].key) && !Stores(s.files, from[j], p.erased[j].key) {
      assert Stores(s0.files, from[j], requests[erased[j]].key);
      assert LostFrom(p, from, from[j], p.erased[j].key);
    }
  }
}
