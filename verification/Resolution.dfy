/**
  What a resolution has found so far, and what finding or not finding means.
*/
module Resolution {
  import opened Basics
  import opened Batch
  import opened StoreState
  import opened Insertion
  import opened Deletion
  import opened Retry

  /** `full_resolution`. */
  datatype Resolved = Resolved(found: Table, absent: seq<Request>)

  /** The versions below the active ones. */
  ghost predicate Older(s: State, f: File) {
    Shaped(s) && f in s.files && !IsActive(s, f)
  }

  /** Everything found is stored in an older version, with that data. */
  ghost predicate Genuine(s: State, found: Table) {
    forall k :: k in found ==> exists f :: HoldsAs(s, f, k, found[k])
  }

  ghost predicate HoldsAs(s: State, f: File, k: Key, entry: Entry) {
    Older(s, f) && Stores(s.files, f, k) && s.files[f][k] == entry
  }

  /** A resolution under way. `hits`: the requests answered. */
  ghost predicate Resolving(s: State, requests: seq<Request>, pending: seq<nat>, hits: seq<nat>, found: Table, ok: bool, visited: set<File>) {
    && Shaped(s) && InBatch(requests, hits) && InBatch(requests, pending)
    && Owed(requests, pending, hits) && found.Keys == KeysOf(requests, hits) && Genuine(s, found)
    && (ok ==> Clear(requests, pending, s.files, visited))
  }

  /** The answers of one file. */
  ghost predicate Answers(found: Table, more: Table, keys: set<Key>, t: Table) {
    && more.Keys == found.Keys + keys
    && forall k :: k in more ==> (if k in found then more[k] == found[k] else k in t && more[k] == t[k])
  }

  lemma ResolvingAtFirst(s: State, requests: seq<Request>)
    requires Shaped(s)
    ensures Resolving(s, requests, WorkingSet(requests), [], map[], true, {})
  {
    WorkingSetIsFirsts(requests);
  }

  lemma KeysOfBoth(requests: seq<Request>, a: seq<nat>, b: seq<nat>)
    requires InBatch(requests, a) && InBatch(requests, b)
    ensures InBatch(requests, a + b) && KeysOf(requests, a + b) == KeysOf(requests, a) + KeysOf(requests, b)
  {
    var all := a + b;
    forall k ensures k in KeysOf(requests, all) <==> k in KeysOf(requests, a) || k in KeysOf(requests, b) {
      if k in KeysOf(requests, all) {
        var j :| 0 <= j < |all| && requests[all[j]].key == k;
        if j < |a| { assert a[j] == all[j]; } else { assert b[j - |a|] == all[j]; }
      }
      if k in KeysOf(requests, a) { var j :| 0 <= j < |a| && requests[a[j]].key == k; assert all[j] == a[j]; }
      if k in KeysOf(requests, b) { var j :| 0 <= j < |b| && requests[b[j]].key == k; assert all[|a| + j] == b[j]; }
    }
  }

  lemma GenuineOn(s: State, found: Table, more: Table, keys: set<Key>, f: File)
    requires Genuine(s, found) && Older(s, f) && Answers(found, more, keys, s.files[f])
    ensures Genuine(s, more)
  {
    forall k | k in more ensures exists g :: HoldsAs(s, g, k, more[k]) {
      if k in found {
        var g :| HoldsAs(s, g, k, found[k]);
        assert HoldsAs(s, g, k, more[k]);
      } else {
        assert HoldsAs(s, f, k, more[k]);
      }
    }
  }

  /** One more version read. */
  lemma ResolvingOn(s: State, requests: seq<Request>, pending: seq<nat>, hits: seq<nat>, found: Table, more: Table, ok: bool,
                    visited: set<File>, f: File)
    requires Resolving(s, requests, pending, hits, found, ok, visited) && Older(s, f)
    requires Answers(found, more, KeysOf(requests, Hits(requests, pending, s.files[f])), s.files[f])
    ensures Resolving(s, requests, Misses(requests, pending, s.files[f]), hits + Hits(requests, pending, s.files[f]), more, ok, visited + {f})
  {
    var t := s.files[f];
    var left := Misses(requests, pending, t);
    VisitOwed(requests, pending, hits, |pending|, t);
    assert pending[..|pending|] == pending && pending[|pending|..] == [] && left + [] == left;
    HitsAndMisses(requests, pending, t);
    KeysOfBoth(requests, hits, Hits(requests, pending, t));
    GenuineOn(s, found, more, KeysOf(requests, Hits(requests, pending, t)), f);
    if ok {
      ClearOfFewer(requests, pending, left, s.files, visited);
      MissesAreClear(s, requests, pending, f);
    }
  }

  lemma MissesAreClear(s: State, requests: seq<Request>, pending: seq<nat>, f: File)
    requires InBatch(requests, pending) && f in s.files
    ensures Clear(requests, Misses(requests, pending, s.files[f]), s.files, {f})
  {
    HitsAndMisses(requests, pending, s.files[f]);
    var left := Misses(requests, pending, s.files[f]);
    assert forall p :: 0 <= p < |left| ==> left[p] in left;
  }

  /** What a successful resolution answers: exactly the requested keys stored in some version below the
      active ones, with their data, and exactly the rest called absent, once each. Whatever the cache held and
      in whatever order the versions were read. */
  ghost predicate Exact(s: State, requests: seq<Request>, r: Resolved) {
    && (forall k :: k in r.found <==> Names(requests, k) && exists f :: Older(s, f) && Stores(s.files, f, k))
    && (forall k :: k in r.found ==> exists f :: HoldsAs(s, f, k, r.found[k]))
    && (forall k :: Names(r.absent, k) <==> Names(requests, k) && k !in r.found)
    && (forall i, j :: 0 <= i < j < |r.absent| ==> r.absent[i].key != r.absent[j].key)
  }

  lemma KeysAreNames(requests: seq<Request>, picks: seq<nat>, k: Key)
    requires InBatch(requests, picks)
    ensures k in KeysOf(requests, picks) <==> Names(Picked(requests, picks), k)
  {
    if k in KeysOf(requests, picks) {
      var p :| 0 <= p < |picks| && requests[picks[p]].key == k;
      assert Picked(requests, picks)[p].key == k;
    }
    if Names(Picked(requests, picks), k) {
      var p :| 0 <= p < |picks| && Picked(requests, picks)[p].key == k;
      assert requests[picks[p]].key == k;
    }
  }

  lemma ResolveMeans(s: State, requests: seq<Request>, pending: seq<nat>, hits: seq<nat>, found: Table, visited: set<File>)
    requires Resolving(s, requests, pending, hits, found, true, visited)
    requires pending == [] || forall f :: Older(s, f) ==> f in visited
    ensures Exact(s, requests, Resolved(found, Picked(requests, pending)))
  {
    OwedIsDistinct(requests, pending, hits);
    var r := Resolved(found, Picked(requests, pending));
    forall k ensures (Names(requests, k) <==> k in found || Names(r.absent, k)) && !(k in found && Names(r.absent, k)) {
      KeysAreNames(requests, hits, k);
      WorkingSetNames(requests, hits, pending, k);
    }
    forall k | Names(r.absent, k) ensures !exists f :: Older(s, f) && Stores(s.files, f, k) {
      var p :| 0 <= p < |pending| && requests[pending[p]].key == k;
      forall f | Older(s, f) ensures !Stores(s.files, f, k) {
        assert f in visited && f in s.files;
      }
    }
    forall k | k in found ensures exists f :: Older(s, f) && Stores(s.files, f, k) {
      var f :| HoldsAs(s, f, k, found[k]);
      assert Older(s, f) && Stores(s.files, f, k);
    }
  }

  /** The loop over one map: what is found is answered, what is not is kept, in order and in place. */
  ghost predicate Probing(requests: seq<Request>, before: seq<nat>, now: seq<nat>, i: nat, keep: nat, t: Table, found: Table, more: Table)
    requires InBatch(requests, before)
  {
    && keep <= i <= |before| == |now|
    && now[..keep] == Misses(requests, before[..i], t) && now[i..] == before[i..]
    && Answers(found, more, KeysOf(requests, Hits(requests, before[..i], t)), t)
  }

  lemma ProbedMiss(requests: seq<Request>, before: seq<nat>, now: seq<nat>, i: nat, keep: nat, t: Table, found: Table, more: Table)
    requires InBatch(requests, before) && Probing(requests, before, now, i, keep, t, found, more)
    requires i < |before| && requests[before[i]].key !in t
    ensures Probing(requests, before, now[keep := before[i]], i + 1, keep + 1, t, found, more)
  {
    PickOne(requests, before, i, t);
    assert Hits(requests, before[..i], t) + [] == Hits(requests, before[..i], t);
    SetNext(now, keep, before[i]);
    assert now[i + 1..] == now[i..][1..] && before[i + 1..] == before[i..][1..];
  }

  lemma AnswersOne(found: Table, more: Table, keys: set<Key>, t: Table, k: Key)
    requires Answers(found, more, keys, t) && k in t
    ensures Answers(found, if k in more then more else more[k := t[k]], keys + {k}, t)
  {
  }

  lemma ProbedHit(requests: seq<Request>, before: seq<nat>, now: seq<nat>, i: nat, keep: nat, t: Table, found: Table, more: Table)
    requires InBatch(requests, before) && Probing(requests, before, now, i, keep, t, found, more)
    requires i < |before| && requests[before[i]].key in t
    ensures var k := requests[before[i]].key;
            Probing(requests, before, now, i + 1, keep, t, found, if k in more then more else more[k := t[k]])
  {
    var hits := Hits(requests, before[..i], t);
    PickOne(requests, before, i, t);
    KeysOfSnoc(requests, hits, before[i]);
    AnswersOne(found, more, KeysOf(requests, hits), t, requests[before[i]].key);
    assert Misses(requests, before[..i], t) + [] == Misses(requests, before[..i], t);
    assert now[i + 1..] == now[i..][1..] && before[i + 1..] == before[i..][1..];
  }

  /** `probe_full_file` on the map of one version. */
  method ProbeMap(requests: seq<Request>, list: seq<nat>, t: Table, found: Table) returns (left: seq<nat>, more: Table)
    requires InBatch(requests, list)
    ensures left == Misses(requests, list, t)
    ensures Answers(found, more, KeysOf(requests, Hits(requests, list, t)), t)
  {
    var pending, keep, i := list, 0, 0;
    more := found;
    while i < |list|
      invariant keep <= i <= |list| == |pending| && Probing(requests, list, pending, i, keep, t, found, more)
    {
      var idx := pending[i];
      assert idx == pending[i..][0] == list[i..][0];
      var k := requests[idx].key;
      if k in t {
        ProbedHit(requests, list, pending, i, keep, t, found, more);
        if k !in more { more := more[k := t[k]]; }
      } else {
        ProbedMiss(requests, list, pending, i, keep, t, found, more);
        pending := pending[keep := idx];
        keep := keep + 1;
      }
      i := i + 1;
    }
    assert list[..i] == list;
    left := pending[..keep];
  }

  // ------------------------------------------------------------------
  // Every version below the active ones
  // ------------------------------------------------------------------

  lemma BelowIsOlder(s: State, c: nat, j: nat)
    requires Shaped(s) && c < |s.catalogs| && j < |s.catalogs[c]| - 1
    ensures Older(s, File(c, s.catalogs[c][j]))
  {
    assert CatalogOk(s.catalogs[c], s.highest[c]);
    assert s.catalogs[c][j] in s.catalogs[c];
  }
}
