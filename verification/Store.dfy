/**
  The instance as it runs: `database_impl` of the full mode.
*/
module Store {
  import opened Basics
  import opened Batch
  import opened StoreState
  import opened Insertion
  import opened Deletion
  import opened Retry
  import opened Resolution
  import opened Walks

  class Database {
    const capacities: seq<nat>
    var files: Files
    var catalogs: seq<seq<nat>>
    var highest: seq<nat>
    var rotations: seq<nat>
    var count: int
    var dirty: set<File>
    var integrity: Option<Error>
    var cleanupPending: bool
    ghost var durable: set<File>

    ghost function S(): State
      reads this
    {
      State(files, catalogs, highest, rotations, count, dirty, durable, integrity, cleanupPending)
    }

    /** `rotate_for`: the old version is noted before it stops being active, then the new one made. */
    method RotateFor(c: nat, fails: bool) returns (failure: Option<Error>)
      requires Shaped(S()) && c < |catalogs|
      modifies this
      ensures S() == if fails then RotationFailed(old(S()), c) else Rotated(old(S()), c)
      ensures failure == if fails then Some(FileOpenFailed) else None
    {
      assert CatalogOk(catalogs[c], highest[c]);
      dirty := dirty + {File(c, catalogs[c][|catalogs[c]| - 1])};
      if fails {
        integrity := Some(FileOpenFailed);
        return integrity;
      }
      var next := highest[c] + 1;
      files := files[File(c, next) := map[]];
      durable := durable - {File(c, next)};
      catalogs := catalogs[c := catalogs[c] + [next]];
      highest := highest[c := next];
      rotations := rotations[c := rotations[c] + 1];
      failure := None;
    }

    /** One `emplace`, and the classification of its exception. */
    method TryOnce(c: nat, key: Key, entry: Entry, e: Emplace) returns (r: Result<bool>)
      requires Shaped(S()) && c < |catalogs|
      modifies this
      ensures (S(), r) == Tried(old(S()), c, key, entry, e)
    {
      ActiveIsThere(S(), c);
      var f := File(c, catalogs[c][|catalogs[c]| - 1]);
      var table := files[f];
      if e.Works? {
        if key in table { return Ok(false); }
        files := files[f := table[key := entry]];
        durable := durable - {f};
        count := count + 1;
        return Ok(true);
      }
      if e.Damages? {
        files := files[f := e.after];
        durable := durable - {f};
      }
      if Mutated(table, files[f], e.Damages? && e.reshaped, key) {
        integrity := Some(EntryCorrupt);
        return Err(EntryCorrupt);
      }
      r := Err(InsufficientSpace);
    }

    /** The loop of `insert_in_index`: one attempt, and one more after a rotation. */
    method TryTwice(c: nat, key: Key, entry: Entry, luck: InsertLuck) returns (r: Result<bool>)
      requires Shaped(S()) && c < |catalogs|
      modifies this
      ensures (S(), r) == TriedTwice(old(S()), c, key, entry, luck)
    {
      r := TryOnce(c, key, entry, luck.first);
      TriedIsShaped(old(S()), c, key, entry, luck.first);
      if r == Err(InsufficientSpace) {
        RotatedIsShaped(S(), c);
        var rotated := RotateFor(c, luck.capacityFails);
        if rotated.Some? { return Err(rotated.value); }
        r := TryOnce(c, key, entry, luck.second);
      }
    }

    /** `insert_in_index`. */
    method InsertInIndex(c: nat, key: Key, entry: Entry, luck: InsertLuck) returns (r: Result<bool>)
      requires Shaped(S()) && c < |catalogs|
      modifies this
      ensures (S(), r) == Inserted(old(S()), c, key, entry, luck)
      ensures Answer(old(S()), c, key, entry, luck, S(), r)
    {
      AnswersExactly(S(), c, key, entry, luck);
      if luck.guardRefuses {
        ActiveIsThere(S(), c);
        if key in files[File(c, catalogs[c][|catalogs[c]| - 1])] { return Ok(false); }
        RotatedIsShaped(S(), c);
        var rotated := RotateFor(c, luck.preventiveFails);
        if rotated.Some? { return Err(rotated.value); }
      }
      r := TryTwice(c, key, entry, luck);
    }

    /** `insert`: into the first class the value fits, or refused when it fits none. */
    method Insert(key: Key, entry: Entry, luck: InsertLuck) returns (r: Result<bool>)
      requires Shaped(S()) && |catalogs| == |capacities|
      modifies this
      ensures (forall i :: 0 <= i < |capacities| ==> |entry.data| > capacities[i]) ==> r == Err(ValueTooLarge) && S() == old(S())
      ensures forall c: nat :: c < |catalogs| && FirstFit(capacities, |entry.data|, c) ==>
                (S(), r) == Inserted(old(S()), c, key, entry, luck)
    {
      var c := ClassOf(capacities, |entry.data|);
      if c == |capacities| { return Err(ValueTooLarge); }
      r := InsertInIndex(c, key, entry, luck);
    }

    // ----------------------------------------------------------------
    // Deletion
    // ----------------------------------------------------------------

    /** `step_over_file` on the map of one version, with its bookkeeping. */
    method EraseIn(requests: seq<Request>, list: seq<nat>, f: File, throwsAfter: Option<nat>)
      returns (left: seq<nat>, hits: seq<nat>, noted: bool, threw: bool, ghost cut: nat)
      requires f in files && DistinctKeys(requests, list)
      modifies this
      ensures cut <= |list| && (!threw ==> cut == |list|) && hits == Hits(requests, list[..cut], old(files)[f])
      ensures S() == Erased(old(S()), f, Less(old(files)[f], KeysOf(requests, hits)), |hits|, noted)
      ensures left == Misses(requests, list[..cut], old(files)[f]) + list[cut..]
      ensures threw <==> |hits| > 0 && throwsAfter == Some(|hits|)
      ensures noted <==> |hits| > (if threw then 1 else 0)
    {
      var after;
      after, left, hits, noted, threw, cut := StepOverFile(requests, list, files[f], throwsAfter);
      files := files[f := after];
      count := count - |hits|;
      if |hits| > 0 { durable := durable - {f}; }
      if noted { dirty := dirty + {f}; }
    }

    /** One version of a batch: `erase_in_full_file`. */
    method EraseAt(requests: seq<Request>, list: seq<nat>, f: File, faults: Faults,
                ghost s0: State, ghost erased: seq<nat>, ghost from: seq<File>, ghost visited: set<File>)
      returns (left: seq<nat>, hits: seq<nat>, read: bool)
      requires f in files && Underway(s0, S(), requests, list, erased, from, true, visited)
      modifies this
      ensures (read <==> !Fails(faults, Stop(Version(f), |hits|))) && (f in faults.refuses ==> hits == [])
      ensures Underway(s0, S(), requests, left, erased + hits, from + Repeated(f, |hits|), true, if read then visited + {f} else visited)
      ensures catalogs == old(catalogs) && (old(Registered(S())) && ThrowsIn(faults, f) != Some(1) ==> Registered(S()))
    {
      ghost var s := S();
      OwedIsDistinct(requests, list, erased);
      if f in faults.refuses {
        assert erased + [] == erased && from + Repeated(f, 0) == from;
        return list, [], false;
      }
      var noted, threw;
      ghost var cut;
      left, hits, noted, threw, cut := EraseIn(requests, list, f, ThrowsIn(faults, f));
      read := !threw;
      UnderwayOn(s0, s, requests, list, erased, from, visited, f, cut, noted, read);
      if Registered(s) { ErasedIsRegistered(s, f, Less(s.files[f], KeysOf(requests, hits)), |hits|, threw); }
    }

    /** The next stop, at a version. */
    method Visit(requests: seq<Request>, list: seq<nat>, done: seq<nat>, f: File, faults: Faults, complete: bool,
                 ghost listed: bool, ghost w: Walk, ghost todo: seq<Place>)
      returns (left: seq<nat>, erased: seq<nat>, still: bool)
      requires OnTheWay(S(), requests, list, done, complete, listed, w, todo) && list != [] && faults == w.faults
      requires f in w.start.files && todo != [] && todo[0] == Version(f)
      modifies this
      ensures OnTheWay(S(), requests, left, erased, still, listed, w, todo[1..]) && catalogs == old(catalogs)
    {
      ghost var s := S();
      ghost var t := SoFar(s, requests, list, done, complete, listed, w, todo);
      PendingIsInBatch(s, requests, list, done, complete, listed, t, faults);
      var hits, read;
      left, hits, read := EraseAt(requests, list, f, faults, t.start, done, t.from, Actives(t.start) + ReadBy(t.trail, faults));
      erased, still := done + hits, complete && read;
      ghost var u := Trip(t.start, t.from + Repeated(f, |hits|), t.trail + [Stop(Version(f), |hits|)], t.todo[1..], t.reg);
      ReadOn(Actives(t.start), t.trail, f, |hits|, faults);
      TouringOn(S(), requests, left, erased, complete, listed, t, faults, list, f, |hits|, u);
      FromHere(S(), requests, left, erased, still, listed, w, u);
    }

    /** `erase_in_latest_version`: the first class whose active map holds the key. */
    method EraseInLatest(key: Key) returns (at: Option<File>)
      requires Shaped(S())
      modifies this`files, this`durable
      ensures at.None? ==> S() == old(S()) && forall f :: f in Actives(S()) && f in files ==> key !in files[f]
      ensures at.Some? ==> at.value in files && at.value in Actives(old(S())) && key in old(files)[at.value]
                           && S() == old(S()).(files := files, durable := old(durable) - {at.value})
                           && files == old(files)[at.value := old(files)[at.value] - {key}]
    {
      var c := 0;
      while c < |catalogs|
        invariant 0 <= c <= |catalogs| && S() == old(S())
        invariant forall d :: 0 <= d < c && ActiveIn(catalogs, d) in files ==> key !in files[ActiveIn(catalogs, d)]
      {
        ActiveIsThere(S(), c);
        var f := File(c, catalogs[c][|catalogs[c]| - 1]);
        if key in files[f] {
          files := files[f := files[f] - {key}];
          durable := durable - {f};
          assert f == ActiveOf(old(S()), c);
          return Some(f);
        }
        c := c + 1;
      }
      at := None;
      forall f | f in Actives(S()) && f in files ensures key !in files[f] {
        var d: nat :| d < |catalogs| && |catalogs[d]| > 0 && ActiveOf(S(), d) == f;
        assert ActiveIn(catalogs, d) == f;
      }
    }

    /** `erase_in_latest_version` with the running total. */
    method EraseActive(key: Key) returns (at: Option<File>)
      requires Shaped(S())
      modifies this
      ensures at.None? ==> S() == old(S()) && forall f :: f in Actives(S()) && f in files ==> key !in files[f]
      ensures at.Some? ==> at.value in old(files) && at.value in Actives(old(S())) && key in old(files)[at.value]
                           && S() == Erased(old(S()), at.value, old(files)[at.value] - {key}, 1, false)
    {
      at := EraseInLatest(key);
      if at.Some? { count := count - 1; }
    }

    /** One turn of phase 0: erased from an active version, or kept and moved down in place. */
    method EraseOrKeep(requests: seq<Request>, pending: seq<nat>, keep: nat, i: nat, done: seq<nat>, ghost s0: State, ghost src: seq<File>)
      returns (list: seq<nat>, kept: nat, erased: seq<nat>, ghost from: seq<File>)
      requires i < |pending| && PhaseOne(s0, S(), requests, pending, keep, i, done, src)
      modifies this
      ensures |list| == |pending| && PhaseOne(s0, S(), requests, list, kept, i + 1, erased, from)
    {
      var idx := pending[i];
      ghost var s := S();
      list, kept, erased, from := pending, keep, done, src;
      PhaseOneNow(s0, s, requests, pending, keep, i, done, src);
      var at := EraseActive(requests[idx].key);
      if at.Some? {
        erased, from := done + [idx], src + [at.value];
        PhaseOneErased(s0, s, requests, pending, keep, i, done, src, at.value);
      } else {
        PhaseOneKept(s0, s, requests, pending, keep, i, done, src);
        list, kept := pending[keep := idx], keep + 1;
      }
    }

    /** The loop of phase 0. */
    method EraseEach(requests: seq<Request>, list: seq<nat>, ghost s0: State)
      returns (pending: seq<nat>, keep: nat, erased: seq<nat>, ghost from: seq<File>)
      requires PhaseOne(s0, S(), requests, list, 0, 0, [], [])
      modifies this
      ensures |pending| == |list| && PhaseOne(s0, S(), requests, pending, keep, |list|, erased, from)
    {
      pending, keep, erased, from := list, 0, [], [];
      var i := 0;
      while i < |list|
        invariant i <= |list| == |pending| && PhaseOne(s0, S(), requests, pending, keep, i, erased, from)
      {
        pending, keep, erased, from := EraseOrKeep(requests, pending, keep, i, erased, s0, from);
        i := i + 1;
      }
    }

    /** Phase 0 of a batch: the active versions. */
    method EraseFromActives(requests: seq<Request>, list: seq<nat>, ghost s0: State)
      returns (left: seq<nat>, erased: seq<nat>, ghost from: seq<File>)
      requires Shaped(s0) && s0 == S() && Underway(s0, s0, requests, list, [], [], true, {})
      modifies this
      ensures Underway(s0, S(), requests, left, erased, from, true, Actives(s0))
      ensures Registered(s0) ==> Registered(S())
      ensures forall f :: f in from ==> f in Actives(s0)
    {
      PhaseOneBegins(s0, S(), requests, list);
      var pending, keep;
      pending, keep, erased, from := EraseEach(requests, list, s0);
      PhaseOneEnds(s0, S(), requests, pending, keep, erased, from);
      left := pending[..keep];
    }

    /** Phase 1: the versions whose mapping is cached, whatever they are and in whatever order. */
    method WalkCached(requests: seq<Request>, list: seq<nat>, done: seq<nat>, cached: seq<File>, faults: Faults,
                      ghost w: Walk, ghost line: seq<seq<Place>>)
      returns (left: seq<nat>, erased: seq<nat>, complete: bool)
      requires InLine(line, cached) && faults == w.faults && forall f :: f in cached ==> f in w.start.files
      requires OnTheWay(S(), requests, list, done, true, true, w, line[0])
      modifies this
      ensures OnTheWay(S(), requests, left, erased, complete, true, w, line[|cached|]) && catalogs == old(catalogs)
    {
      left, erased, complete := list, done, true;
      var i := 0;
      while i < |cached| && left != []
        invariant 0 <= i <= |cached| && catalogs == old(catalogs)
        invariant OnTheWay(S(), requests, left, erased, complete, true, w, line[i])
      {
        left, erased, complete := Visit(requests, left, erased, cached[i], faults, complete, true, w, line[i]);
        i := i + 1;
      }
    }

    /** One version of a class, unless the cache held it. */
    method VisitBelow(requests: seq<Request>, list: seq<nat>, done: seq<nat>, f: File, cached: seq<File>, faults: Faults,
                      before: bool, ghost heard: bool, ghost w: Walk, ghost todo: seq<Place>, ghost rest: seq<Place>)
      returns (left: seq<nat>, erased: seq<nat>, complete: bool)
      requires OnTheWay(S(), requests, list, done, before, heard, w, todo) && list != [] && faults == w.faults
      requires f in w.start.files && Leads(todo, f, cached, rest)
      modifies this
      ensures OnTheWay(S(), requests, left, erased, complete, heard, w, rest) && catalogs == old(catalogs)
    {
      left, erased, complete := list, done, before;
      if f !in cached { left, erased, complete := Visit(requests, list, done, f, faults, before, heard, w, todo); }
    }

    /** Phase 2, one class: what its catalogue lists below the active version and the cache did not hold. */
    method WalkVersions(requests: seq<Request>, list: seq<nat>, done: seq<nat>, c: nat, cached: seq<File>, faults: Faults,
                        before: bool, ghost heard: bool, ghost w: Walk, ghost ahead: seq<seq<Place>>, ghost after: seq<Place>)
      returns (left: seq<nat>, erased: seq<nat>, complete: bool)
      requires Shaped(w.start) && catalogs == w.start.catalogs && c < |catalogs| && faults == w.faults
      requires LaidOut(ahead, catalogs[c], c, cached, after)
      requires OnTheWay(S(), requests, list, done, before, heard, w, ahead[|ahead| - 1])
      modifies this
      ensures OnTheWay(S(), requests, left, erased, complete, heard, w, after) && catalogs == old(catalogs)
    {
      left, erased, complete := list, done, before;
      var j := |catalogs[c]| - 1;
      while j > 0 && left != []
        invariant catalogs == old(catalogs) && 0 <= j < |catalogs[c]|
        invariant OnTheWay(S(), requests, left, erased, complete, heard, w, ahead[j])
        decreases j
      {
        j := j - 1;
        VersionIsThere(w.start, c, j);
        left, erased, complete := VisitBelow(requests, left, erased, File(c, catalogs[c][j]), cached, faults, complete, heard, w, ahead[j + 1], ahead[j]);
      }
    }

    /** Phase 2, the next class. */
    method WalkClass(requests: seq<Request>, list: seq<nat>, done: seq<nat>, c: nat, cached: seq<File>, faults: Faults,
                     before: bool, heard: bool, ghost w: Walk, ghost todo: seq<Place>, ghost after: seq<Place>)
      returns (left: seq<nat>, erased: seq<nat>, complete: bool, listed: bool)
      requires Shaped(w.start) && catalogs == w.start.catalogs && c < |catalogs| && faults == w.faults
      requires ClassLaid(catalogs, c, cached, faults.unlistable, todo, after)
      requires OnTheWay(S(), requests, list, done, before, heard, w, todo)
      modifies this
      ensures OnTheWay(S(), requests, left, erased, complete, listed, w, after) && catalogs == old(catalogs)
    {
      left, erased, complete, listed := list, done, before, heard;
      if left != [] {
        ghost var ahead :| LaidOut(ahead, catalogs[c], c, cached, after) && Enters(todo, c, faults.unlistable, ahead, after);
        OnTheWayListed(S(), requests, list, done, before, heard, w, c, todo);
        if c in faults.unlistable {
          complete, listed := false, false;
        } else {
          left, erased, complete := WalkVersions(requests, list, done, c, cached, faults, before, heard, w, ahead, after);
        }
      }
    }

    /** Phase 2: class after class, as `for_each_index` unfolds them. */
    method WalkCatalogues(requests: seq<Request>, list: seq<nat>, done: seq<nat>, cached: seq<File>, faults: Faults,
                          before: bool, ghost w: Walk, ghost plan: seq<seq<Place>>)
      returns (left: seq<nat>, erased: seq<nat>, complete: bool, listed: bool)
      requires Shaped(w.start) && catalogs == w.start.catalogs && faults == w.faults
      requires Planned(plan, catalogs, cached, faults.unlistable)
      requires OnTheWay(S(), requests, list, done, before, true, w, plan[0])
      modifies this
      ensures OnTheWay(S(), requests, left, erased, complete, listed, w, [])
    {
      left, erased, complete, listed := list, done, before, true;
      var c := 0;
      while c < |catalogs|
        invariant catalogs == old(catalogs) && 0 <= c <= |catalogs|
        invariant OnTheWay(S(), requests, left, erased, complete, listed, w, plan[c])
      {
        left, erased, complete, listed := WalkClass(requests, left, erased, c, cached, faults, complete, listed, w, plan[c], plan[c + 1]);
        c := c + 1;
      }
    }

    /** `apply_deletes`. */
    method ApplyDeletes(requests: seq<Request>, cached: seq<File>, faults: Faults)
      returns (p: Progress, ghost erased: seq<nat>, ghost rest: seq<nat>, ghost from: seq<File>, ghost trail: seq<Stop>)
      requires Shaped(S()) && forall f :: f in cached ==> f in files
      modifies this
      ensures Batched(old(S()), S(), requests, p, erased, rest, from)
      ensures Traced(old(S()), requests, p, rest, from, trail, cached, faults)
      ensures Quiet(faults, old(files)) ==> p.error.None?
      ensures old(Registered(S())) && NeverEarly(faults) ==> Registered(S())
    {
      ghost var s0 := S();
      var pending := WorkingSetOf(requests);
      UnderwayAtFirst(s0, requests);
      var done, complete, listed;
      pending, done, from := EraseFromActives(requests, pending, s0);
      ghost var w := Walk(s0, Way(catalogs, cached, faults.unlistable), Registered(s0) && NeverEarly(faults), faults);
      OnTheWayBegins(S(), requests, pending, done, from, w);
      ghost var line, plan := Plan(s0, cached, faults.unlistable);
      pending, done, complete := WalkCached(requests, pending, done, cached, faults, w, line);
      pending, done, complete, listed := WalkCatalogues(requests, pending, done, cached, faults, complete, w, plan);
      erased, rest := done, pending;
      DoneIsInBatch(S(), requests, pending, done, complete, listed, w, []);
      p := Report(requests, done, pending, complete, listed);
      from, trail := BatchEnds(S(), requests, p, erased, rest, complete, listed, w, cached);
      if Quiet(faults, s0.files) { QuietIsWhole(s0, trail, cached, faults); }
    }

    // ----------------------------------------------------------------
    // Lookup
    // ----------------------------------------------------------------

    /** `full_find`: the active versions, and nothing else. */
    method FullFind(key: Key) returns (r: Option<Entry>)
      requires Shaped(S())
      ensures r.Some? ==> exists f :: f in Actives(S()) && Stores(files, f, key) && files[f][key] == r.value
      ensures r.Some? ==> exists c: nat :: FirstAnswers(files, catalogs, c, key, r.value)
      ensures r.None? ==> forall f :: f in Actives(S()) ==> !Stores(files, f, key)
    {
      var c := 0;
      while c < |catalogs|
        invariant 0 <= c <= |catalogs|
        invariant forall d :: 0 <= d < c ==> !Stores(files, ActiveIn(catalogs, d), key)
      {
        LastIsActive(S(), c);
        ActiveIsThere(S(), c);
        var f := File(c, catalogs[c][|catalogs[c]| - 1]);
        if key in files[f] {
          assert f in Actives(S()) && Stores(files, f, key);
          assert FirstAnswers(files, catalogs, c, key, files[f][key]);
          return Some(files[f][key]);
        }
        c := c + 1;
      }
      r := None;
      forall f | f in Actives(S()) ensures !Stores(files, f, key) {
        var d: nat :| d < |catalogs| && |catalogs[d]| > 0 && ActiveOf(S(), d) == f;
        assert ActiveIn(catalogs, d) == f;
      }
    }

    /** One version of a resolution. */
    method Probe(requests: seq<Request>, list: seq<nat>, found: Table, f: File, faults: Faults, complete: bool,
                 ghost listed: bool, ghost way: seq<Place>, ghost todo: seq<Place>)
      returns (left: seq<nat>, more: Table, still: bool)
      requires Searching(S(), requests, list, found, complete, listed, way, todo, faults) && list != [] && faults.throws == map[]
      requires Older(S(), f) && todo != [] && todo[0] == Version(f)
      ensures Searching(S(), requests, left, more, still, listed, way, todo[1..], faults)
    {
      SearchingInBatch(S(), requests, list, found, complete, listed, way, todo, faults);
      if f !in faults.refuses {
        left, more := ProbeMap(requests, list, files[f], found);
        still := complete;
        SearchingOn(S(), requests, list, found, complete, listed, way, todo, faults, more, f);
      } else {
        left, more, still := list, found, false;
        SearchingShut(S(), requests, list, found, complete, listed, way, todo, faults, f);
      }
    }

    /** Phase 1 of a resolution: the cached versions. */
    method ProbeCached(requests: seq<Request>, list: seq<nat>, cached: seq<File>, faults: Faults, ghost way: seq<Place>, ghost line: seq<seq<Place>>)
      returns (left: seq<nat>, found: Table, complete: bool)
      requires InLine(line, cached) && faults.throws == map[] && forall f :: f in cached ==> Older(S(), f)
      requires Searching(S(), requests, list, map[], true, true, way, line[0], faults)
      ensures Searching(S(), requests, left, found, complete, true, way, line[|cached|], faults)
    {
      left, found, complete := list, map[], true;
      var i := 0;
      while i < |cached| && left != []
        invariant 0 <= i <= |cached|
        invariant Searching(S(), requests, left, found, complete, true, way, line[i], faults)
      {
        left, found, complete := Probe(requests, left, found, cached[i], faults, complete, true, way, line[i]);
        i := i + 1;
      }
    }

    /** One version of a class, unless the cache held it. */
    method ProbeBelow(requests: seq<Request>, list: seq<nat>, found: Table, f: File, cached: seq<File>, faults: Faults,
                      before: bool, ghost heard: bool, ghost way: seq<Place>, ghost todo: seq<Place>, ghost rest: seq<Place>)
      returns (left: seq<nat>, more: Table, complete: bool)
      requires faults.throws == map[] && Older(S(), f) && Leads(todo, f, cached, rest)
      requires Searching(S(), requests, list, found, before, heard, way, todo, faults) && list != []
      ensures Searching(S(), requests, left, more, complete, heard, way, rest, faults)
    {
      left, more, complete := list, found, before;
      if f !in cached { left, more, complete := Probe(requests, list, found, f, faults, before, heard, way, todo); }
    }

    /** Phase 2 of a resolution: the versions of one class. */
    method ProbeVersions(requests: seq<Request>, list: seq<nat>, found: Table, c: nat, cached: seq<File>, faults: Faults,
                         before: bool, ghost heard: bool, ghost way: seq<Place>, ghost ahead: seq<seq<Place>>, ghost after: seq<Place>)
      returns (left: seq<nat>, more: Table, complete: bool)
      requires Shaped(S()) && faults.throws == map[] && c < |catalogs| && LaidOut(ahead, catalogs[c], c, cached, after)
      requires Searching(S(), requests, list, found, before, heard, way, ahead[|ahead| - 1], faults)
      ensures Searching(S(), requests, left, more, complete, heard, way, after, faults)
    {
      left, more, complete := list, found, before;
      var j := |catalogs[c]| - 1;
      while j > 0 && left != []
        invariant 0 <= j < |catalogs[c]|
        invariant Searching(S(), requests, left, more, complete, heard, way, ahead[j], faults)
        decreases j
      {
        j := j - 1;
        BelowIsOlder(S(), c, j);
        left, more, complete := ProbeBelow(requests, left, more, File(c, catalogs[c][j]), cached, faults, complete, heard, way, ahead[j + 1], ahead[j]);
      }
    }

    /** Phase 2 of a resolution, the next class. */
    method ProbeClass(requests: seq<Request>, list: seq<nat>, found: Table, c: nat, cached: seq<File>, faults: Faults,
                      before: bool, heard: bool, ghost way: seq<Place>, ghost todo: seq<Place>, ghost after: seq<Place>)
      returns (left: seq<nat>, more: Table, complete: bool, listed: bool)
      requires Shaped(S()) && faults.throws == map[] && c < |catalogs| && ClassLaid(catalogs, c, cached, faults.unlistable, todo, after)
      requires Searching(S(), requests, list, found, before, heard, way, todo, faults)
      ensures Searching(S(), requests, left, more, complete, listed, way, after, faults)
    {
      left, more, complete, listed := list, found, before, heard;
      if left != [] {
        ghost var ahead :| LaidOut(ahead, catalogs[c], c, cached, after) && Enters(todo, c, faults.unlistable, ahead, after);
        SearchingPast(S(), requests, list, found, before, heard, way, c, todo, faults);
        if c in faults.unlistable {
          complete, listed := false, false;
        } else {
          left, more, complete := ProbeVersions(requests, list, found, c, cached, faults, before, heard, way, ahead, after);
        }
      }
    }

    /** Phase 2 of a resolution: class after class. */
    method ProbeCatalogues(requests: seq<Request>, list: seq<nat>, found: Table, cached: seq<File>, faults: Faults,
                           before: bool, ghost way: seq<Place>, ghost plan: seq<seq<Place>>)
      returns (left: seq<nat>, more: Table, complete: bool, listed: bool)
      requires Shaped(S()) && faults.throws == map[] && Planned(plan, catalogs, cached, faults.unlistable)
      requires Searching(S(), requests, list, found, before, true, way, plan[0], faults)
      ensures Searching(S(), requests, left, more, complete, listed, way, [], faults)
    {
      left, more, complete, listed := list, found, before, true;
      var c := 0;
      while c < |catalogs|
        invariant 0 <= c <= |catalogs|
        invariant Searching(S(), requests, left, more, complete, listed, way, plan[c], faults)
      {
        left, more, complete, listed := ProbeClass(requests, left, more, c, cached, faults, complete, listed, way, plan[c], plan[c + 1]);
        c := c + 1;
      }
    }

    /** `full_resolve`. Only the opening of a version can fail, not the reading of one that opened. */
    method FullResolve(requests: seq<Request>, cached: seq<File>, refuses: set<File>, unlistable: set<nat>)
      returns (r: Result<Resolved>, ghost rest: seq<nat>, ghost found: Table, ghost trail: seq<Stop>)
      requires Shaped(S()) && forall f :: f in cached ==> Older(S(), f)
      ensures r.Ok? ==> Exact(S(), requests, r.value) && found == r.value.found
      ensures Sought(S(), requests, r, rest, found, trail, cached, Faults(refuses, map[], unlistable))
      ensures refuses == {} && unlistable == {} ==> r.Ok?
    {
      var faults := Faults(refuses, map[], unlistable);
      var pending := WorkingSetOf(requests);
      ghost var way := Way(catalogs, cached, unlistable);
      SearchingBegins(S(), requests, way, faults);
      var table, complete, listed;
      ghost var line, plan := Plan(S(), cached, unlistable);
      pending, table, complete := ProbeCached(requests, pending, cached, faults, way, line);
      pending, table, complete, listed := ProbeCatalogues(requests, pending, table, cached, faults, complete, way, plan);
      rest, found := pending, table;
      trail := SearchEnds(S(), requests, pending, table, complete, listed, cached, faults);
      r := if complete then Ok(Resolved(table, Picked(requests, pending))) else Err(if listed then VersionUnreadable else CatalogUnreadable);
    }

    // ----------------------------------------------------------------
    // Durability
    // ----------------------------------------------------------------

    /** The active versions, class by class: pages, then the file. */
    method SyncActives(fails: set<nat>) returns (ok: bool)
      requires Shaped(S())
      modifies this`durable
      ensures old(durable) <= durable <= files.Keys
      ensures ok ==> forall c :: 0 <= c < |catalogs| ==> ActiveIn(catalogs, c) in durable
      ensures ok <==> forall c: nat :: c < |catalogs| ==> c !in fails
    {
      ghost var s := S();
      var c := 0;
      while c < |catalogs|
        invariant 0 <= c <= |catalogs| && old(durable) <= durable <= files.Keys
        invariant forall d :: 0 <= d < c ==> ActiveIn(catalogs, d) in durable && d !in fails
      {
        if c in fails { return false; }
        LastIsActive(s, c);
        ActiveIsThere(s, c);
        durable := durable + {File(c, catalogs[c][|catalogs[c]| - 1])};
        c := c + 1;
      }
      ok := true;
    }

    /** Every version the register owes a flush, in whatever order. */
    method SyncDirty(fails: set<File>) returns (ok: bool)
      requires Shaped(S())
      modifies this`durable
      ensures old(durable) <= durable <= files.Keys
      ensures ok ==> dirty <= durable
      ensures ok <==> dirty !! fails
    {
      var todo := dirty;
      while todo != {}
        invariant todo <= dirty <= files.Keys && old(durable) <= durable <= files.Keys && dirty - todo <= durable
        invariant dirty - todo !! fails
        decreases |todo|
      {
        var f :| f in todo;
        if f in fails { return false; }
        durable := durable + {f};
        todo := todo - {f};
      }
      ok := true;
    }

    /** `sync`. A success leaves nothing owed and every version durable; a failure discharges nothing. */
    method Sync(luck: SyncLuck) returns (failure: Option<Error>)
      requires Shaped(S())
      modifies this`durable, this`dirty
      ensures S() == old(S()).(durable := durable, dirty := dirty) && old(durable) <= durable && Shaped(S())
      ensures failure.None? ==> dirty == {} && (old(Registered(S())) ==> durable == files.Keys)
      ensures failure.Some? ==> dirty == old(dirty)
      ensures old(Registered(S())) ==> Registered(S())
      ensures cleanupPending ==> failure == Some(RecoveryRequired) && durable == old(durable)
      ensures !cleanupPending && failure.Some? ==> failure == Some(SyncFailed)
      ensures failure.None? <==>
                !cleanupPending && (forall c: nat :: c < |catalogs| ==> c !in luck.actives) && !luck.mappings
                && old(dirty) !! luck.files && !luck.directory
    {
      if cleanupPending { return Some(RecoveryRequired); }
      ghost var s := S();
      failure := Some(SyncFailed);
      var ok := SyncActives(luck.actives);
      DurableIsApart(s, S());
      if ok && !luck.mappings {
        ok := SyncDirty(luck.files);
        DurableIsApart(s, S());
        if ok && !luck.directory {
          if Registered(s) { AllDurable(s, S()); }
          dirty := {};
          failure := None;
        }
      }
      if Registered(s) { StillRegistered(s, S()); }
    }
  }

  /** Which barriers of a sync fail. */
  datatype SyncLuck = SyncLuck(actives: set<nat>, mappings: bool, files: set<File>, directory: bool)

  lemma DurableIsApart(s: State, s2: State)
    requires Shaped(s) && s2 == s.(durable := s2.durable) && s2.durable <= s.files.Keys
    ensures Shaped(s2)
  {
  }

  lemma AllDurable(s: State, s2: State)
    requires Shaped(s) && Registered(s) && s2 == s.(durable := s2.durable) && Shaped(s2)
    requires s.durable + s.dirty <= s2.durable && forall c :: 0 <= c < |s2.catalogs| ==> ActiveIn(s2.catalogs, c) in s2.durable
    ensures s2.durable == s2.files.Keys
  {
    forall f | f in s2.files ensures f in s2.durable {
      if f !in s.durable && f !in s.dirty {
        assert IsActive(s, f);
        LastIsActive(s2, f.cls);
        assert f == ActiveIn(s2.catalogs, f.cls);
      }
    }
  }

  lemma StillRegistered(s: State, s2: State)
    requires Shaped(s) && Registered(s) && Shaped(s2) && s2 == s.(durable := s2.durable, dirty := s2.dirty)
    requires s.durable <= s2.durable && (s2.dirty == s.dirty || s2.durable == s2.files.Keys)
    ensures Registered(s2)
  {
    forall f | f in s2.files && f !in s2.durable ensures f in s2.dirty || IsActive(s2, f) {
      assert f in s.dirty || IsActive(s, f);
    }
  }

  /** The three lists of a finished batch. */
  function Report(requests: seq<Request>, done: seq<nat>, pending: seq<nat>, complete: bool, listed: bool): Progress
    requires InBatch(requests, done) && InBatch(requests, pending)
  {
    if complete then Progress(Picked(requests, done), Picked(requests, pending), [], None)
    else Progress(Picked(requests, done), [], Picked(requests, pending), Some(if listed then VersionUnreadable else CatalogUnreadable))
  }

  /** The active version of class `c` has this entry, and those of the classes before it do not have the key. */
  ghost predicate FirstAnswers(files: Files, catalogs: seq<seq<nat>>, c: nat, key: Key, entry: Entry) {
    && c < |catalogs| && Stores(files, ActiveIn(catalogs, c), key) && files[ActiveIn(catalogs, c)][key] == entry
    && forall d: nat :: d < c ==> !Stores(files, ActiveIn(catalogs, d), key)
  }

  function ActiveIn(catalogs: seq<seq<nat>>, c: nat): File
    requires c < |catalogs|
  {
    if |catalogs[c]| > 0 then File(c, catalogs[c][|catalogs[c]| - 1]) else File(c, 0)
  }
}
