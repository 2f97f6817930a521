/**
  Whole runs of the store: insertions, deletions, flushes, compactions, deaths at any point, and
  reopenings that may themselves be cut, against one map from outpoints to entries.
*/
module Runs {
  import opened Basics
  import opened Batch
  import opened Disk
  import opened Recovery
  import opened Merge
  import opened MergeEffect
  import opened Settling
  import opened Thrown
  import opened Backing
  import opened StoreState
  import opened Insertion
  import opened Deletion
  import opened Retry
  import opened Resolution

  // ------------------------------------------------------------------
  // The classes of one map
  // ------------------------------------------------------------------

  function ClassFrom(capacities: seq<nat>, size: nat, i: nat): (c: nat)
    requires i <= |capacities|
    ensures i <= c <= |capacities|
    decreases |capacities| - i
  {
    if i == |capacities| || size <= capacities[i] then i else ClassFrom(capacities, size, i + 1)
  }

  /** `get_index_from_size`; the number of classes when the value fits none. */
  function ClassFor(capacities: seq<nat>, e: Entry): nat { ClassFrom(capacities, |e.data|, 0) }

  lemma {:induction false} ClassFromIsFirst(capacities: seq<nat>, size: nat, i: nat)
    requires i <= |capacities| && forall j :: 0 <= j < i ==> size > capacities[j]
    ensures forall c: nat :: c < |capacities| ==> (ClassFrom(capacities, size, i) == c <==> FirstFit(capacities, size, c))
    decreases |capacities| - i
  {
    if i < |capacities| && size > capacities[i] { ClassFromIsFirst(capacities, size, i + 1); }
  }

  /** The class the runs give an entry is the one an insertion looks for, or there is none for either. */
  lemma ClassForIsFirstFit(capacities: seq<nat>, e: Entry)
    ensures forall c: nat :: c < |capacities| ==> (ClassFor(capacities, e) == c <==> FirstFit(capacities, |e.data|, c))
    ensures ClassFor(capacities, e) == |capacities| <==> forall c: nat :: c < |capacities| ==> !FirstFit(capacities, |e.data|, c)
  {
    ClassFromIsFirst(capacities, |e.data|, 0);
    var at := ClassFor(capacities, e);
    if at < |capacities| { assert FirstFit(capacities, |e.data|, at); }
  }

  /** The part of a map that one size class stores. */
  function Slice(m: Table, capacities: seq<nat>, c: nat): Table {
    map k | k in m && ClassFor(capacities, m[k]) == c :: m[k]
  }

  /** The catalogued versions hold exactly `m`: each key once, in its class, with its entry. */
  ghost predicate Contains(files: Files, m: Table, capacities: seq<nat>) {
    && (forall f, k :: Stores(files, f, k) ==> k in m && m[k] == files[f][k] && ClassFor(capacities, m[k]) == f.cls)
    && (forall k :: k in m ==> Stored(files, k))
    && AtMostOnce(files)
  }

  lemma ClassPartition(s: State, m: Table, capacities: seq<nat>, c: nat)
    requires Shaped(s) && Contains(s.files, m, capacities) && c < |s.catalogs|
    ensures Partition(ClassTables(s, c), Slice(m, capacities, c))
  {
    var ts, part := ClassTables(s, c), Slice(m, capacities, c);
    forall v, k | Holds(ts, v, k) ensures Stores(s.files, File(c, v), k) && k in part && part[k] == ts[v][k] {
      assert Stores(s.files, File(c, v), k);
    }
    forall k | k in part ensures exists v :: Holds(ts, v, k) {
      var f :| Stores(s.files, f, k);
      assert f == File(c, f.version) && f.version in s.catalogs[c];
      assert Holds(ts, f.version, k);
    }
    forall v, w, k | Holds(ts, v, k) && Holds(ts, w, k) ensures v == w {
      assert Stores(s.files, File(c, v), k) && Stores(s.files, File(c, w), k);
    }
  }

  /** The other way round: every class holding its part, the store holds the whole. */
  lemma ClassesContain(s: State, m: Table, capacities: seq<nat>)
    requires Shaped(s) && |s.catalogs| == |capacities|
    requires forall k :: k in m ==> ClassFor(capacities, m[k]) < |capacities|
    requires forall c :: 0 <= c < |capacities| ==> Partition(ClassTables(s, c), Slice(m, capacities, c))
    ensures Contains(s.files, m, capacities)
  {
    forall f, k | Stores(s.files, f, k) ensures k in m && m[k] == s.files[f][k] && ClassFor(capacities, m[k]) == f.cls {
      assert f == File(f.cls, f.version);
      assert Holds(ClassTables(s, f.cls), f.version, k);
      assert k in Slice(m, capacities, f.cls);
    }
    forall k | k in m ensures Stored(s.files, k) {
      var c := ClassFor(capacities, m[k]);
      assert k in Slice(m, capacities, c);
      var v :| Holds(ClassTables(s, c), v, k);
      assert Stores(s.files, File(c, v), k);
    }
    forall f, g, k | Stores(s.files, f, k) && Stores(s.files, g, k) ensures f == g {
      assert f.cls == g.cls;
      assert f == File(f.cls, f.version) && g == File(g.cls, g.version);
      assert Holds(ClassTables(s, f.cls), f.version, k) && Holds(ClassTables(s, f.cls), g.version, k);
    }
  }

  lemma SizeSplits(m: Table, part: Table)
    requires forall k :: k in part ==> k in m
    ensures |m| == |part| + |m - part.Keys|
  {
    var rest := m - part.Keys;
    assert rest.Keys == m.Keys - part.Keys;
    assert m.Keys == part.Keys + rest.Keys;
    assert |m| == |m.Keys| && |part| == |part.Keys| && |rest| == |rest.Keys|;
  }

  lemma {:induction false} WeightIsSize(files: Files, m: Table, capacities: seq<nat>)
    requires Contains(files, m, capacities)
    ensures Weight(files) == |m|
    decreases |files|
  {
    if files == map[] {
      assert forall k :: k in m ==> Stored(files, k);
      assert m.Keys == {};
    } else {
      var f :| f in files;
      WeightPick(files, f);
      ContainsLess(files, m, capacities, f);
      WeightIsSize(files - {f}, m - files[f].Keys, capacities);
      forall k | k in files[f] ensures k in m { assert Stores(files, f, k); }
      SizeSplits(m, files[f]);
    }
  }

  lemma ContainsLess(files: Files, m: Table, capacities: seq<nat>, f: File)
    requires Contains(files, m, capacities) && f in files
    ensures Contains(files - {f}, m - files[f].Keys, capacities)
  {
    var rest, m2 := files - {f}, m - files[f].Keys;
    forall g, k | Stores(rest, g, k) ensures k in m2 && m2[k] == rest[g][k] && ClassFor(capacities, m2[k]) == g.cls {
      assert Stores(files, g, k);
      assert k in files[f] ==> Stores(files, f, k);
    }
    forall k | k in m2 ensures Stored(rest, k) {
      var g :| Stores(files, g, k);
      assert Stores(rest, g, k);
    }
    forall g, h, k | Stores(rest, g, k) && Stores(rest, h, k) ensures g == h {
      assert Stores(files, g, k) && Stores(files, h, k);
    }
  }

  // ------------------------------------------------------------------
  // Runs
  // ------------------------------------------------------------------

  /** The directory, class by class, as a process sees it; and the instance open on it, if one is. */
  datatype Run = Run(views: seq<View>, open: Option<State>)

  /** Neither latch is set: the gates let operations through. */
  predicate Usable(s: State) { s.integrity.None? && !s.cleanup }

  predicate Serving(r: Run) { r.open.Some? && Usable(r.open.value) }

  /** No merge is in flight in any class. */
  ghost predicate NoneInFlight(views: seq<View>) { forall c :: 0 <= c < |views| ==> NoRecord(views[c]) }

  /** The gates let operations through, and no merge was left with its record named. */
  ghost predicate Working(r: Run) { Serving(r) && NoneInFlight(r.views) }

  /** An instance that serves has no merge in flight below it. */
  ghost predicate Sealed(r: Run) { Serving(r) ==> NoneInFlight(r.views) }

  /** A flush is let through on an instance whose merge is still to be cleaned up. */
  predicate Flushable(r: Run) { r.open.Some? && r.open.value.integrity.None? }

  /** The directory of a class is what the instance has catalogued, with no merge in flight. */
  ghost predicate MirrorsClass(view: View, s: State, c: nat) {
    && c < |s.catalogs| && NoRecord(view)
    && (forall v: nat :: Data(v) in view ==> view[Data(v)].Rows?)
    && Tables(view) == ClassTables(s, c)
  }

  ghost predicate Mirrors(views: seq<View>, s: State) {
    |views| == |s.catalogs| && forall c :: 0 <= c < |views| ==> MirrorsClass(views[c], s, c)
  }

  /** Every catalogued version is there with the entries the instance has for it. */
  ghost predicate ServesClass(view: View, s: State, c: nat) {
    c < |s.catalogs| && forall v :: v in ClassTables(s, c) ==> ShowsAs(view, v, ClassTables(s, c)[v])
  }

  ghost predicate ServesAll(views: seq<View>, s: State) {
    |views| == |s.catalogs| && forall c :: 0 <= c < |views| ==> ServesClass(views[c], s, c)
  }

  ghost predicate OpenInv(capacities: seq<nat>, views: seq<View>, s: State, m: Table) {
    && Shaped(s) && |s.catalogs| == |capacities| && s.count == |m|
    && Contains(s.files, m, capacities)
    && ServesAll(views, s) && (Usable(s) && NoneInFlight(views) ==> Mirrors(views, s))
  }

  ghost predicate Fits(capacities: seq<nat>, m: Table) {
    forall k :: k in m ==> ClassFor(capacities, m[k]) < |capacities|
  }

  /** What every reachable state keeps, open or not, latched or not. */
  ghost predicate Inv(capacities: seq<nat>, r: Run, m: Table) {
    && |r.views| == |capacities| && Fits(capacities, m)
    && (forall c :: 0 <= c < |r.views| ==> Represents(r.views[c], Slice(m, capacities, c)))
    && (r.open.Some? ==> OpenInv(capacities, r.views, r.open.value, m))
  }

  lemma MirrorRepresents(view: View, s: State, c: nat, m: Table, capacities: seq<nat>)
    requires Shaped(s) && Contains(s.files, m, capacities) && MirrorsClass(view, s, c)
    ensures Represents(view, Slice(m, capacities, c))
  {
    RecordsAreNamed(view);
    SettledMeansAll(view);
    ClassPartition(s, m, capacities, c);
  }

  lemma MirrorServes(view: View, s: State, c: nat)
    requires MirrorsClass(view, s, c)
    ensures ServesClass(view, s, c)
  {
    TablesOf(view);
  }

  lemma MirrorsServe(views: seq<View>, s: State)
    requires Mirrors(views, s)
    ensures ServesAll(views, s)
  {
    forall c | 0 <= c < |views| ensures ServesClass(views[c], s, c) { MirrorServes(views[c], s, c); }
  }

  /** An instance that mirrors its directory and contains `m` keeps the invariant. */
  lemma MirroredInv(capacities: seq<nat>, views: seq<View>, s: State, m: Table)
    requires Shaped(s) && |s.catalogs| == |capacities| && s.count == |m| && Contains(s.files, m, capacities)
    requires Mirrors(views, s) && Fits(capacities, m)
    ensures Inv(capacities, Run(views, Some(s)), m)
  {
    forall c | 0 <= c < |views| ensures Represents(views[c], Slice(m, capacities, c)) {
      MirrorRepresents(views[c], s, c, m, capacities);
    }
    MirrorsServe(views, s);
  }

  datatype Event =
    | Insert(key: Key, entry: Entry, luck: InsertLuck)
    | Delete(requests: seq<Request>)
    | Flush
    | MergeOne(c: nat, job: Job, fate: Fate)
    | MergeThrows(c: nat, job: Job, fate: Fate, k: nat)
    | LoseActive
    | Die
    | DieInMerge(c: nat, job: Job, fate: Fate, k: nat)
    | RecoverPart(c: nat, k: nat)
    | Open

  function KeysIn(rs: seq<Request>): set<Key> {
    set j | 0 <= j < |rs| :: rs[j].key
  }

  ghost predicate Inserting(capacities: seq<nat>, r: Run, m: Table, key: Key, entry: Entry, luck: InsertLuck, r2: Run, m2: Table)
    requires Working(r) && Shaped(r.open.value) && |r.open.value.catalogs| == |capacities|
  {
    var c := ClassFor(capacities, entry);
    if c == |capacities| then r2 == r && m2 == m
    else
      var (s2, res) := Inserted(r.open.value, c, key, entry, luck);
      r2.open == Some(s2) && Mirrors(r2.views, s2) && m2 == if res == Ok(true) then m[key := entry] else m
  }

  ghost predicate Deleting(r: Run, m: Table, requests: seq<Request>, r2: Run, m2: Table)
    requires Working(r)
  {
    exists s2, call: Call :: call.requests == requests && CallDid(r.open.value, s2, call)
      && r2.open == Some(s2) && Mirrors(r2.views, s2) && m2 == m - KeysIn(call.progress.erased)
  }

  /** The instance after one merge of class `c`, as `Compaction.Compactor.MergeVersions` leaves it. */
  ghost predicate AfterMerge(s: State, s2: State, c: nat, job: Job, f: Fate) {
    AfterSteps(s, s2, c, job, f) && s2.cleanup == (s.cleanup || OutcomeOf(job, f).Latched?)
  }

  /** The same but for the latch. */
  ghost predicate AfterSteps(s: State, s2: State, c: nat, job: Job, f: Fate) {
    && Shaped(s2) && |s2.catalogs| == |s.catalogs| && c < |s.catalogs|
    && (forall d :: 0 <= d < |s.catalogs| && d != c ==> s2.catalogs[d] == s.catalogs[d] && ClassTables(s2, d) == ClassTables(s, d))
    && (forall v :: v in job.plan.sources ==> v in ClassTables(s, c))
    && ClassTables(s2, c) == (if f.build == Built && Catalogued(f)
                              then Replaced(ClassTables(s, c), job.plan.sources, job.plan.target) else ClassTables(s, c))
    && c < |s.highest| && s2.highest == s.highest[c := if f.build == Built && Catalogued(f) then job.plan.target else s.highest[c]]
    && s2.count == s.count && s2.integrity == s.integrity
    && DurableMerged(s, s2, c, job, f)
  }

  /** What is on stable storage after a merge: what was and is still there, and the target. */
  ghost predicate DurableMerged(s: State, s2: State, c: nat, job: Job, f: Fate) {
    forall g :: g in s2.durable <==>
      g in s2.files && (g in s.durable || (f.build == Built && Catalogued(f) && g == File(c, job.plan.target)))
  }

  /** The instance after a merge that an exception left when `k` of its steps were done: no latch is set, and the
      catalogue is what it was or what it became, as far as it had been told. An identity may be issued and the
      version not be added. */
  ghost predicate AfterThrow(s: State, s2: State, c: nat, job: Job, f: Fate, k: nat) {
    && s2.cleanup == s.cleanup && c < |s.highest|
    && ((Untold(job, f, k) && s2 == s.(highest := s2.highest)
         && (s2.highest == s.highest || (Told(job, f, k) && s2.highest == s.highest[c := job.plan.target])))
        || (Told(job, f, k) && AfterSteps(s, s2, c, job, f)))
  }

  ghost predicate MayMerge(r: Run, c: nat, job: Job) {
    && Working(r) && c < |r.views| && NoRecord(r.views[c]) && FitsView(job, r.views[c])
    && c < |r.open.value.highest| && job.plan.target == r.open.value.highest[c] + 1
  }

  /** A class without a version gets an empty version zero. */
  function Started(view: View): View {
    if DataVersions(view) == {} then view[Data(0) := Rows(map[], None)] else view
  }

  /** What `configure_internal` builds from a recovered directory. */
  ghost predicate Loaded(views: seq<View>, s: State) {
    && Shaped(s) && |s.catalogs| == |views| && Usable(s) && Counted(s)
    && forall c :: 0 <= c < |views| ==> s.catalogs[c] == Listed(DataVersions(views[c])) && ClassTables(s, c) == Tables(views[c])
  }

  ghost predicate Opening(r: Run, r2: Run)
    requires r.open.None?
  {
    && |r2.views| == |r.views| && r2.open.Some? && Loaded(r2.views, r2.open.value)
    && forall c :: 0 <= c < |r.views| ==>
         RecoveryTrace(r.views[c]).Some? && r2.views[c] == Started(ViewExec(r.views[c], RecoveryTrace(r.views[c]).value))
  }

  /** One event. The caller never inserts a key already stored, and the maps keep their guarantee; and nothing is
      written between a merge that an exception left with its record named and the next opening. An operation on an
      instance that a latch has stopped is refused and changes nothing. */
  ghost predicate Happens(capacities: seq<nat>, r: Run, m: Table, e: Event, r2: Run, m2: Table) {
    match e
    case Insert(key, entry, luck) =>
      if !Serving(r) then r2 == r && m2 == m
      else Working(r) && key !in m && Faithful(luck) && Shaped(r.open.value) && |r.open.value.catalogs| == |capacities|
           && Inserting(capacities, r, m, key, entry, luck, r2, m2)
    case Delete(requests) =>
      if !Serving(r) then r2 == r && m2 == m else Working(r) && Deleting(r, m, requests, r2, m2)
    case Flush =>
      m2 == m && r2.views == r.views
      && (if Flushable(r) then r2.open.Some? && Shaped(r2.open.value)
                             && r2.open.value == r.open.value.(durable := r2.open.value.durable, dirty := r2.open.value.dirty)
          else r2 == r)
    case MergeOne(c, job, f) =>
      MayMerge(r, c, job) && m2 == m && r2.views == r.views[c := ViewExec(r.views[c], MergeTrace(job, f))]
      && r2.open.Some? && AfterMerge(r.open.value, r2.open.value, c, job, f)
    case MergeThrows(c, job, f, k) =>
      MayMerge(r, c, job) && k <= |MergeTrace(job, f)| && m2 == m && r2.views == r.views[c := CutView(r.views[c], job, f, k)]
      && r2.open.Some? && AfterThrow(r.open.value, r2.open.value, c, job, f, k)
    case LoseActive =>
      Serving(r) && m2 == m && r2 == r.(open := Some(r.open.value.(cleanup := true)))
    case Die =>
      m2 == m && r2 == r.(open := None)
    case DieInMerge(c, job, f, k) =>
      MayMerge(r, c, job) && k <= |MergeTrace(job, f)| && m2 == m
      && r2 == Run(r.views[c := ViewExec(r.views[c], MergeTrace(job, f)[..k])], None)
    case RecoverPart(c, k) =>
      r.open.None? && c < |r.views| && RecoveryTrace(r.views[c]).Some? && k <= |RecoveryTrace(r.views[c]).value| && m2 == m
      && r2 == Run(r.views[c := ViewExec(r.views[c], RecoveryTrace(r.views[c]).value[..k])], None)
    case Open =>
      r.open.None? && m2 == m && Opening(r, r2)
  }

  // ------------------------------------------------------------------
  // Every event keeps the invariant
  // ------------------------------------------------------------------

  lemma ContainsSame(a: Files, b: Files, m: Table, capacities: seq<nat>)
    requires Contains(a, m, capacities) && SameEntries(a, b)
    ensures Contains(b, m, capacities)
  {
    forall f, k | Stores(b, f, k) ensures k in m && m[k] == b[f][k] && ClassFor(capacities, m[k]) == f.cls {
      assert Stores(a, f, k);
    }
    forall k | k in m ensures Stored(b, k) {
      var f :| Stores(a, f, k);
      assert Stores(b, f, k);
    }
    forall f, g, k | Stores(b, f, k) && Stores(b, g, k) ensures f == g {
      assert Stores(a, f, k) && Stores(a, g, k);
    }
  }

  lemma ContainsMore(a: Files, b: Files, m: Table, capacities: seq<nat>, at: File, key: Key, entry: Entry)
    requires Contains(a, m, capacities) && Gains(a, b, at, key, entry)
    requires key !in m && ClassFor(capacities, entry) == at.cls
    ensures Contains(b, m[key := entry], capacities)
  {
    var m2 := m[key := entry];
    forall f, k | Stores(b, f, k) ensures k in m2 && m2[k] == b[f][k] && ClassFor(capacities, m2[k]) == f.cls
                                          && (k == key ==> f == at) && (k != key ==> Stores(a, f, k)) {
      if !(f == at && k == key) { assert Stores(a, f, k); }
    }
    forall k | k in m2 ensures Stored(b, k) {
      if k == key {
        assert Stores(b, at, key);
      } else {
        var f :| Stores(a, f, k);
        assert Stores(b, f, k);
      }
    }
    forall f, g, k | Stores(b, f, k) && Stores(b, g, k) ensures f == g {
      if k != key { assert Stores(a, f, k) && Stores(a, g, k); }
    }
  }

  lemma ContainsLessKeys(a: Files, b: Files, m: Table, capacities: seq<nat>, gone: seq<Request>)
    requires Contains(a, m, capacities) && Lacks(a, b, gone)
    ensures Contains(b, m - KeysIn(gone), capacities)
  {
    var m2 := m - KeysIn(gone);
    forall k ensures k in KeysIn(gone) <==> Names(gone, k) {
      if Names(gone, k) { var j :| 0 <= j < |gone| && gone[j].key == k; }
    }
    forall f, k | Stores(b, f, k) ensures k in m2 && m2[k] == b[f][k] && ClassFor(capacities, m2[k]) == f.cls {
      assert Stores(a, f, k) && !Names(gone, k);
    }
    forall k | k in m2 ensures Stored(b, k) {
      var f :| Stores(a, f, k);
      assert Stores(b, f, k);
    }
    forall f, g, k | Stores(b, f, k) && Stores(b, g, k) ensures f == g {
      assert Stores(a, f, k) && Stores(a, g, k);
    }
  }

  /** A map that keeps its guarantee never has its key seen after a failure it was not in before. */
  lemma FaithfulNeverCorrupts(s: State, c: nat, key: Key, entry: Entry, luck: InsertLuck)
    requires Shaped(s) && c < |s.catalogs| && Faithful(luck) && forall f :: !Stores(s.files, f, key)
    ensures Inserted(s, c, key, entry, luck).1 != Err(EntryCorrupt)
  {
    ActiveIsThere(s, c);
    RotatedSame(s, c);
    if luck.guardRefuses && !luck.preventiveFails {
      TryCannotCorrupt(Rotated(s, c), c, key, entry, luck);
    } else {
      TryCannotCorrupt(s, c, key, entry, luck);
    }
  }

  lemma TryCannotCorrupt(s: State, c: nat, key: Key, entry: Entry, luck: InsertLuck)
    requires Shaped(s) && c < |s.catalogs| && Faithful(luck)
    requires ActiveOf(s, c) in s.files && !Stores(s.files, ActiveOf(s, c), key)
    ensures TriedTwice(s, c, key, entry, luck).1 != Err(EntryCorrupt)
  {
    RotatedSame(s, c);
  }

  lemma AnswerFacts(s: State, s2: State, c: nat, key: Key, entry: Entry, res: Result<bool>, n: nat)
    requires Answered(s, s2, c, key, entry, res, n, false) && res != Err(EntryCorrupt)
    ensures Shaped(s2) && |s2.catalogs| == |s.catalogs| && c < |s2.catalogs|
    ensures res == Ok(true) ==> Gains(s.files, s2.files, ActiveOf(s2, c), key, entry) && s2.count == s.count + 1
    ensures res == Ok(false) ==> s2 == s && Stored(s.files, key)
    ensures res.Err? ==> SameEntries(s.files, s2.files) && s2.count == s.count
  {
    if res == Ok(false) { assert Stores(s.files, ActiveOf(s, c), key); }
  }

  lemma NotStored(files: Files, m: Table, capacities: seq<nat>, key: Key)
    requires Contains(files, m, capacities) && key !in m
    ensures !Stored(files, key)
  {
  }

  lemma AnsweredContains(capacities: seq<nat>, a: Files, b: Files, m: Table, at: File, key: Key, entry: Entry, res: Result<bool>, m2: Table)
    requires Contains(a, m, capacities) && key !in m && ClassFor(capacities, entry) == at.cls
    requires res == Ok(true) ==> Gains(a, b, at, key, entry)
    requires res == Ok(false) ==> Stored(a, key)
    requires res.Err? ==> SameEntries(a, b)
    requires m2 == if res == Ok(true) then m[key := entry] else m
    ensures Contains(b, m2, capacities) && res != Ok(false)
    ensures |m2| == |m| + (if res == Ok(true) then 1 else 0)
  {
    NotStored(a, m, capacities, key);
    match res
    case Err(_) =>
      ContainsSame(a, b, m, capacities);
    case Ok(gained) =>
      if gained {
        ContainsMore(a, b, m, capacities, at, key, entry);
        OneMore(m, key, entry);
      }
  }

  lemma InsertContains(capacities: seq<nat>, s: State, m: Table, c: nat, key: Key, entry: Entry, luck: InsertLuck,
                       s2: State, res: Result<bool>, m2: Table)
    requires Shaped(s) && s.integrity.None? && c < |s.catalogs| && Contains(s.files, m, capacities) && s.count == |m|
    requires key !in m && Faithful(luck) && ClassFor(capacities, entry) == c
    requires (s2, res) == Inserted(s, c, key, entry, luck) && m2 == if res == Ok(true) then m[key := entry] else m
    ensures Shaped(s2) && |s2.catalogs| == |s.catalogs| && s2.count == |m2| && Contains(s2.files, m2, capacities)
  {
    var n := InsertMeans(s, c, key, entry, luck, s2, res);
    FaithfulNeverCorrupts(s, c, key, entry, luck);
    AnswerFacts(s, s2, c, key, entry, res, n);
    AnsweredContains(capacities, s.files, s2.files, m, ActiveOf(s2, c), key, entry, res, m2);
  }

  lemma InsertKeepsInv(capacities: seq<nat>, r: Run, m: Table, key: Key, entry: Entry, luck: InsertLuck, r2: Run, m2: Table)
    requires Inv(capacities, r, m) && Working(r) && key !in m && Faithful(luck)
    requires Inserting(capacities, r, m, key, entry, luck, r2, m2)
    ensures Inv(capacities, r2, m2)
  {
    var s, c := r.open.value, ClassFor(capacities, entry);
    if c < |capacities| {
      var (s2, res) := Inserted(s, c, key, entry, luck);
      InsertContains(capacities, s, m, c, key, entry, luck, s2, res, m2);
      assert r2 == Run(r2.views, Some(s2));
      MirroredInv(capacities, r2.views, s2, m2);
    }
  }

  lemma DeleteKeepsInv(capacities: seq<nat>, r: Run, m: Table, requests: seq<Request>, r2: Run, m2: Table)
    requires Inv(capacities, r, m) && Working(r) && Deleting(r, m, requests, r2, m2)
    ensures Inv(capacities, r2, m2)
  {
    var s := r.open.value;
    var s2, call: Call :| call.requests == requests && CallDid(s, s2, call)
      && r2.open == Some(s2) && Mirrors(r2.views, s2) && m2 == m - KeysIn(call.progress.erased);
    CallByKeys(s, s2, call);
    ContainsLessKeys(s.files, s2.files, m, capacities, call.progress.erased);
    WeightIsSize(s.files, m, capacities);
    WeightIsSize(s2.files, m2, capacities);
    assert r2 == Run(r2.views, Some(s2));
    MirroredInv(capacities, r2.views, s2, m2);
  }

  /** The instance a merge of class `c` left, when the catalogue had been told of it and when it had not. */
  ghost predicate HasTables(s: State, s2: State, c: nat, job: Job, told: bool) {
    && Shaped(s2) && |s2.catalogs| == |s.catalogs| && c < |s.catalogs| && s2.count == s.count
    && (forall d :: 0 <= d < |s.catalogs| && d != c ==> ClassTables(s2, d) == ClassTables(s, d))
    && (if told then (forall v :: v in job.plan.sources ==> v in ClassTables(s, c))
                     && ClassTables(s2, c) == Replaced(ClassTables(s, c), job.plan.sources, job.plan.target)
        else ClassTables(s2, c) == ClassTables(s, c))
  }

  /** `k` steps are done, and the catalogue may have been told of them or not. */
  predicate MayHave(job: Job, f: Fate, k: nat, told: bool) { if told then Told(job, f, k) else Untold(job, f, k) }

  lemma MergePartition(capacities: seq<nat>, s: State, s2: State, m: Table, view: View, c: nat, job: Job, told: bool)
    requires Shaped(s) && Contains(s.files, m, capacities) && c < |s.catalogs|
    requires MirrorsClass(view, s, c) && FitsView(job, view) && HasTables(s, s2, c, job, told)
    ensures Partition(ClassTables(s2, c), Slice(m, capacities, c))
  {
    ClassPartition(s, m, capacities, c);
    if told {
      TablesOf(view);
      PartitionReplaced(ClassTables(s, c), job.plan.sources, job.plan.target, Slice(m, capacities, c));
    }
  }

  lemma MergeContains(capacities: seq<nat>, s: State, s2: State, m: Table, view: View, c: nat, job: Job, told: bool)
    requires Shaped(s) && Contains(s.files, m, capacities) && c < |s.catalogs| == |capacities| && Fits(capacities, m)
    requires MirrorsClass(view, s, c) && FitsView(job, view) && HasTables(s, s2, c, job, told)
    ensures Contains(s2.files, m, capacities)
  {
    forall d | 0 <= d < |capacities| ensures Partition(ClassTables(s2, d), Slice(m, capacities, d)) {
      if d == c { MergePartition(capacities, s, s2, m, view, c, job, told); } else { ClassPartition(s, m, capacities, d); }
    }
    ClassesContain(s2, m, capacities);
  }

  /** What the catalogue then names is there; and it is all there is, unless the record is. */
  lemma CutServes(s: State, s2: State, view: View, c: nat, job: Job, f: Fate, k: nat, told: bool)
    requires MirrorsClass(view, s, c) && FitsView(job, view) && HasTables(s, s2, c, job, told) && MayHave(job, f, k, told)
    ensures ServesClass(CutView(view, job, f, k), s2, c)
    ensures NoRecord(CutView(view, job, f, k)) ==> Tables(CutView(view, job, f, k)) == ClassTables(s2, c)
  {
    if told {
      ToldShows(view, job, f, k);
      if NoRecord(CutView(view, job, f, k)) { ToldTables(view, job, f, k); }
    } else {
      UntoldShows(view, job, f, k);
    }
  }

  lemma CutMirrors(s: State, s2: State, view: View, c: nat, job: Job, f: Fate, k: nat, told: bool, m: Table)
    requires MirrorsClass(view, s, c) && FitsView(job, view) && HasTables(s, s2, c, job, told) && MayHave(job, f, k, told)
    requires Represents(CutView(view, job, f, k), m) && NoRecord(CutView(view, job, f, k))
    ensures MirrorsClass(CutView(view, job, f, k), s2, c)
  {
    CutServes(s, s2, view, c, job, f, k, told);
  }

  lemma CutRepresents(capacities: seq<nat>, r: Run, m: Table, c: nat, job: Job, f: Fate, k: nat)
    requires Inv(capacities, r, m) && MayMerge(r, c, job) && k <= |MergeTrace(job, f)|
    ensures Represents(CutView(r.views[c], job, f, k), Slice(m, capacities, c))
  {
    MergePrefixRepresents(r.views[c], job, f, k, Slice(m, capacities, c));
  }

  lemma CutServesAll(s: State, s2: State, views: seq<View>, c: nat, job: Job, f: Fate, k: nat, told: bool)
    requires c < |views| && MirrorsClass(views[c], s, c) && ServesAll(views, s)
    requires FitsView(job, views[c]) && HasTables(s, s2, c, job, told) && MayHave(job, f, k, told)
    ensures ServesAll(views[c := CutView(views[c], job, f, k)], s2)
  {
    CutServes(s, s2, views[c], c, job, f, k, told);
    var after := views[c := CutView(views[c], job, f, k)];
    forall d | 0 <= d < |after| ensures ServesClass(after[d], s2, d) {
      if d != c { assert ServesClass(views[d], s, d); }
    }
  }

  lemma CutMirrorsAll(capacities: seq<nat>, r: Run, m: Table, c: nat, job: Job, f: Fate, k: nat, told: bool, s2: State)
    requires Inv(capacities, r, m) && MayMerge(r, c, job) && HasTables(r.open.value, s2, c, job, told) && MayHave(job, f, k, told)
    requires NoRecord(CutView(r.views[c], job, f, k))
    ensures Mirrors(r.views[c := CutView(r.views[c], job, f, k)], s2)
  {
    var s := r.open.value;
    assert MirrorsClass(r.views[c], s, c);
    CutRepresents(capacities, r, m, c, job, f, k);
    CutMirrors(s, s2, r.views[c], c, job, f, k, told, Slice(m, capacities, c));
    var views := r.views[c := CutView(r.views[c], job, f, k)];
    forall d | 0 <= d < |views| ensures MirrorsClass(views[d], s2, d) {
      if d != c { assert MirrorsClass(r.views[d], s, d); }
    }
  }

  /** A merge that stopped after `k` steps and left the process running keeps the invariant. */
  lemma CutKeepsInv(capacities: seq<nat>, r: Run, m: Table, c: nat, job: Job, f: Fate, k: nat, told: bool, r2: Run)
    requires Inv(capacities, r, m) && MayMerge(r, c, job) && MayHave(job, f, k, told)
    requires r2.views == r.views[c := CutView(r.views[c], job, f, k)]
    requires r2.open.Some? && HasTables(r.open.value, r2.open.value, c, job, told)
    ensures Inv(capacities, r2, m)
  {
    var s, s2 := r.open.value, r2.open.value;
    CutRepresents(capacities, r, m, c, job, f, k);
    OtherClassesInv(capacities, r, m, c, r2.views[c]);
    assert MirrorsClass(r.views[c], s, c);
    MergeContains(capacities, s, s2, m, r.views[c], c, job, told);
    CutServesAll(s, s2, r.views, c, job, f, k, told);
    if NoneInFlight(r2.views) {
      assert NoRecord(r2.views[c]);
      CutMirrorsAll(capacities, r, m, c, job, f, k, told, s2);
    }
    AssembleInv(capacities, r2, m);
  }

  /** A whole merge is the last of its cuts. */
  lemma WholeIsCut(view: View, job: Job, f: Fate) returns (k: nat)
    ensures MayHave(job, f, k, Catalogued(f)) && CutView(view, job, f, k) == ViewExec(view, MergeTrace(job, f))
  {
    k := |MergeTrace(job, f)|;
    assert MergeTrace(job, f)[..k] == MergeTrace(job, f);
    if Catalogued(f) { ConfirmedTrace(job, f); }
  }

  lemma MergeKeepsInv(capacities: seq<nat>, r: Run, m: Table, c: nat, job: Job, f: Fate, r2: Run)
    requires Inv(capacities, r, m) && MayMerge(r, c, job)
    requires r2.views == r.views[c := ViewExec(r.views[c], MergeTrace(job, f))]
    requires r2.open.Some? && AfterMerge(r.open.value, r2.open.value, c, job, f)
    ensures Inv(capacities, r2, m)
  {
    MergeHasTables(r.open.value, r2.open.value, c, job, f);
    var k := WholeIsCut(r.views[c], job, f);
    CutKeepsInv(capacities, r, m, c, job, f, k, Catalogued(f), r2);
  }

  lemma MergeHasTables(s: State, s2: State, c: nat, job: Job, f: Fate)
    requires AfterSteps(s, s2, c, job, f)
    ensures HasTables(s, s2, c, job, Catalogued(f))
  {
  }

  lemma IssuedIsShaped(s: State, s2: State, c: nat, t: nat)
    requires Shaped(s) && c < |s.highest| && t >= s.highest[c]
    requires s2 == s.(highest := s2.highest) && (s2.highest == s.highest || s2.highest == s.highest[c := t])
    ensures Shaped(s2) && forall d: nat :: d < |s.catalogs| ==> ClassTables(s2, d) == ClassTables(s, d)
  {
    forall d: nat | d < |s.catalogs| ensures CatalogOk(s2.catalogs[d], s2.highest[d]) && ClassTables(s2, d) == ClassTables(s, d) {
      assert CatalogOk(s.catalogs[d], s.highest[d]);
      SameClassTables(s, s2, d);
    }
  }

  lemma SameClassTables(s: State, s2: State, c: nat)
    requires c < |s.catalogs| && s2.files == s.files && s2.catalogs == s.catalogs
    ensures ClassTables(s2, c) == ClassTables(s, c)
  {
  }

  /** The books may change, and a latch be set: what is stored is what counts. */
  lemma SameStored(capacities: seq<nat>, views: seq<View>, s: State, s2: State, m: Table)
    requires OpenInv(capacities, views, s, m) && Shaped(s2)
    requires s2.files == s.files && s2.catalogs == s.catalogs && s2.count == s.count && (Usable(s2) ==> Usable(s))
    ensures OpenInv(capacities, views, s2, m)
  {
    forall c | 0 <= c < |views| ensures ServesClass(views[c], s2, c) && (MirrorsClass(views[c], s, c) ==> MirrorsClass(views[c], s2, c)) {
      assert ServesClass(views[c], s, c);
      SameClassTables(s, s2, c);
    }
  }

  lemma ThrowKeepsInv(capacities: seq<nat>, r: Run, m: Table, c: nat, job: Job, f: Fate, k: nat, r2: Run)
    requires Inv(capacities, r, m) && MayMerge(r, c, job) && k <= |MergeTrace(job, f)|
    requires r2.views == r.views[c := CutView(r.views[c], job, f, k)]
    requires r2.open.Some? && AfterThrow(r.open.value, r2.open.value, c, job, f, k)
    ensures Inv(capacities, r2, m)
  {
    var s, s2 := r.open.value, r2.open.value;
    if Told(job, f, k) && AfterSteps(s, s2, c, job, f) {
      ConfirmedTrace(job, f);
      MergeHasTables(s, s2, c, job, f);
      CutKeepsInv(capacities, r, m, c, job, f, k, true, r2);
    } else {
      IssuedIsShaped(s, s2, c, job.plan.target);
      assert MirrorsClass(r.views[c], s, c);
      CutKeepsInv(capacities, r, m, c, job, f, k, false, r2);
    }
  }

  lemma AssembleInv(capacities: seq<nat>, r: Run, m: Table)
    requires Inv(capacities, Run(r.views, None), m) && r.open.Some? && OpenInv(capacities, r.views, r.open.value, m)
    ensures Inv(capacities, r, m)
  {
  }

  lemma StartedEmpty(view: View)
    requires DataVersions(view) == {}
    ensures Tables(view) == map[] && Tables(Started(view)) == map[0 := map[]]
  {
    TablesOf(view);
    TablesOf(Started(view));
    forall v: nat ensures Data(v) !in view { assert Data(v) in view ==> v in DataVersions(view); }
  }

  lemma EmptyPartition(m: Table)
    requires Partition(map[], m)
    ensures Partition(map[0 := map[]], m)
  {
    var ts: map<nat, Table> := map[0 := map[]];
    var none: map<nat, Table> := map[];
    assert forall v, k :: !Holds(ts, v, k) && !Holds(none, v, k);
    assert forall k :: k in m ==> exists v :: Holds(none, v, k);
  }

  lemma StartedPartition(view: View, m: Table)
    requires Settled(view) && Partition(Tables(view), m)
    ensures Represents(Started(view), m) && NoRecord(Started(view)) && Partition(Tables(Started(view)), m)
    ensures forall v: nat :: Data(v) in Started(view) ==> Started(view)[Data(v)].Rows?
  {
    var after := Started(view);
    RecordsAreNamed(view);
    RecordsAreNamed(after);
    if DataVersions(view) == {} {
      StartedEmpty(view);
      EmptyPartition(m);
    }
    SettledMeansAll(after);
  }

  lemma OpenedClass(view: View, m: Table)
    requires Represents(view, m) && RecoveryTrace(view).Some?
    ensures var after := Started(ViewExec(view, RecoveryTrace(view).value));
            Represents(after, m) && NoRecord(after) && Partition(Tables(after), m)
            && forall v: nat :: Data(v) in after ==> after[Data(v)].Rows?
  {
    RecoverySettles(view);
    StartedPartition(ViewExec(view, RecoveryTrace(view).value), m);
  }

  lemma OpenKeepsInv(capacities: seq<nat>, r: Run, m: Table, r2: Run)
    requires Inv(capacities, r, m) && r.open.None? && Opening(r, r2)
    ensures Inv(capacities, r2, m)
  {
    var s := r2.open.value;
    forall c | 0 <= c < |r.views| ensures Represents(r2.views[c], Slice(m, capacities, c)) && MirrorsClass(r2.views[c], s, c)
                                          && Partition(ClassTables(s, c), Slice(m, capacities, c))
    {
      OpenedClass(r.views[c], Slice(m, capacities, c));
    }
    ClassesContain(s, m, capacities);
    WeightIsSize(s.files, m, capacities);
  }

  lemma OtherClassesInv(capacities: seq<nat>, r: Run, m: Table, c: nat, view: View)
    requires Inv(capacities, r, m) && c < |r.views| && Represents(view, Slice(m, capacities, c))
    ensures Inv(capacities, Run(r.views[c := view], None), m)
  {
  }

  /** Every event keeps the invariant. */
  lemma StepKeepsInv(capacities: seq<nat>, r: Run, m: Table, e: Event, r2: Run, m2: Table)
    requires Inv(capacities, r, m) && Happens(capacities, r, m, e, r2, m2)
    ensures Inv(capacities, r2, m2)
  {
    match e
    case Insert(key, entry, luck) =>
      if Working(r) { InsertKeepsInv(capacities, r, m, key, entry, luck, r2, m2); }
    case Delete(requests) =>
      if Working(r) { DeleteKeepsInv(capacities, r, m, requests, r2, m2); }
    case Flush =>
      if Flushable(r) { FlushKeepsInv(capacities, r, m, r2); }
    case MergeOne(c, job, f) =>
      MergeKeepsInv(capacities, r, m, c, job, f, r2);
    case MergeThrows(c, job, f, k) =>
      ThrowKeepsInv(capacities, r, m, c, job, f, k, r2);
    case LoseActive =>
      LatchKeepsInv(capacities, r, m);
    case Die =>
    case DieInMerge(c, job, f, k) =>
      MergePrefixRepresents(r.views[c], job, f, k, Slice(m, capacities, c));
      OtherClassesInv(capacities, r, m, c, ViewExec(r.views[c], MergeTrace(job, f)[..k]));
    case RecoverPart(c, k) =>
      RecoveryPrefixRepresents(r.views[c], k, Slice(m, capacities, c));
      OtherClassesInv(capacities, r, m, c, ViewExec(r.views[c], RecoveryTrace(r.views[c]).value[..k]));
    case Open =>
      OpenKeepsInv(capacities, r, m, r2);
  }

  lemma FlushKeepsInv(capacities: seq<nat>, r: Run, m: Table, r2: Run)
    requires Inv(capacities, r, m) && Flushable(r) && r2.views == r.views && r2.open.Some? && Shaped(r2.open.value)
    requires r2.open.value == r.open.value.(durable := r2.open.value.durable, dirty := r2.open.value.dirty)
    ensures Inv(capacities, r2, m)
  {
    SameStored(capacities, r.views, r.open.value, r2.open.value, m);
  }

  lemma LatchKeepsInv(capacities: seq<nat>, r: Run, m: Table)
    requires Inv(capacities, r, m) && Serving(r)
    ensures Inv(capacities, r.(open := Some(r.open.value.(cleanup := true))), m)
  {
    SameStored(capacities, r.views, r.open.value, r.open.value.(cleanup := true), m);
  }

  // ------------------------------------------------------------------
  // What every run keeps, and what it lets a caller see
  // ------------------------------------------------------------------

  lemma EmptyMeansNothing()
    ensures Represents(map[], map[])
  {
    var empty: View := map[];
    RecordsAreNamed(empty);
    TablesOf(empty);
    assert forall v, k :: !Holds(Effective(empty), v, k);
  }

  /** A new store holds nothing. */
  lemma FreshInv(capacities: seq<nat>)
    ensures Inv(capacities, Run(seq(|capacities|, _ => map[]), None), map[])
  {
    EmptyMeansNothing();
    assert forall c :: Slice(map[], capacities, c) == map[];
  }

  /** Served uniqueness and count conservation. In every reachable state an open instance counts its entries
      right, has each key in one catalogued version at most, and finds every catalogued version with these entries in
      its directory; and while it serves and no merge is in flight below it, every canonical file of every class is one
      of those versions. */
  lemma ServedOnce(capacities: seq<nat>, r: Run, m: Table)
    requires Inv(capacities, r, m) && r.open.Some?
    ensures AtMostOnce(r.open.value.files) && r.open.value.count == Weight(r.open.value.files) == |m|
    ensures forall f :: f in r.open.value.files ==> f.cls < |r.views| && ShowsAs(r.views[f.cls], f.version, r.open.value.files[f])
    ensures Working(r) ==> forall c, v: nat :: 0 <= c < |r.views| && Data(v) in r.views[c] ==>
              File(c, v) in r.open.value.files && r.views[c][Data(v)].Rows?
              && r.views[c][Data(v)].table == r.open.value.files[File(c, v)]
  {
    var s := r.open.value;
    WeightIsSize(s.files, m, capacities);
    forall f | f in s.files ensures f.cls < |r.views| && ShowsAs(r.views[f.cls], f.version, s.files[f]) {
      assert f == File(f.cls, f.version) && f.version in ClassTables(s, f.cls) && ServesClass(r.views[f.cls], s, f.cls);
    }
    if Working(r) {
      forall c, v: nat | 0 <= c < |r.views| && Data(v) in r.views[c]
        ensures File(c, v) in s.files && r.views[c][Data(v)].Rows? && r.views[c][Data(v)].table == s.files[File(c, v)]
      {
        MirroredFile(r.views, s, c, v);
      }
    }
  }

  lemma MirroredFile(views: seq<View>, s: State, c: nat, v: nat)
    requires Mirrors(views, s) && c < |views| && Data(v) in views[c]
    ensures File(c, v) in s.files && ShowsAs(views[c], v, s.files[File(c, v)])
  {
    assert MirrorsClass(views[c], s, c);
    TablesOf(views[c]);
    assert v in ClassTables(s, c);
  }

  // ------------------------------------------------------------------
  // When a serving instance has a merge in flight below it
  // ------------------------------------------------------------------

  /** A merge that an exception leaves with its record named. */
  ghost predicate Strands(r: Run, e: Event) {
    e.MergeThrows? && e.c < |r.views| && e.k <= |MergeTrace(e.job, e.fate)| && !NoRecord(CutView(r.views[e.c], e.job, e.fate, e.k))
  }

  /** One event alone leaves an instance serving above a merge in flight, and it always does: a merge that an exception
      leaves with its record named. */
  lemma SealedUnlessThrown(capacities: seq<nat>, r: Run, m: Table, e: Event, r2: Run, m2: Table)
    requires Inv(capacities, r, m) && Happens(capacities, r, m, e, r2, m2) && Sealed(r)
    ensures Sealed(r2) <==> !Strands(r, e)
  {
    match e
    case Insert(_, _, _) =>
      WritingSeals(capacities, r, m, e, r2, m2);
    case Delete(_) =>
      WritingSeals(capacities, r, m, e, r2, m2);
    case Flush =>
    case MergeOne(c, job, f) =>
      if Serving(r2) { MergeEndsSealed(r, c, job, f, r2); }
    case MergeThrows(c, job, f, k) =>
      ThrowSeals(r, c, job, f, k, r2);
    case Open =>
      OpenSeals(capacities, r, m, r2);
    case _ =>
  }

  lemma WritingSeals(capacities: seq<nat>, r: Run, m: Table, e: Event, r2: Run, m2: Table)
    requires Happens(capacities, r, m, e, r2, m2) && Sealed(r) && (e.Insert? || e.Delete?)
    ensures Sealed(r2)
  {
    if r2.open.Some? && Mirrors(r2.views, r2.open.value) { MirrorsSeal(r2.views, r2.open.value); }
  }

  lemma MirrorsSeal(views: seq<View>, s: State)
    requires Mirrors(views, s)
    ensures NoneInFlight(views)
  {
    forall c | 0 <= c < |views| ensures NoRecord(views[c]) { assert MirrorsClass(views[c], s, c); }
  }

  lemma MergeEndsSealed(r: Run, c: nat, job: Job, f: Fate, r2: Run)
    requires MayMerge(r, c, job) && r2.views == r.views[c := ViewExec(r.views[c], MergeTrace(job, f))]
    requires r2.open.Some? && AfterMerge(r.open.value, r2.open.value, c, job, f) && Serving(r2)
    ensures NoneInFlight(r2.views)
  {
    MergeEffects(r.views[c], job, f);
    OneInFlight(r.views, c, r2.views[c]);
  }

  lemma OneInFlight(views: seq<View>, c: nat, view: View)
    requires NoneInFlight(views) && c < |views|
    ensures NoneInFlight(views[c := view]) <==> NoRecord(view)
  {
    if NoneInFlight(views[c := view]) { assert NoRecord(views[c := view][c]); }
  }

  lemma ThrowSeals(r: Run, c: nat, job: Job, f: Fate, k: nat, r2: Run)
    requires MayMerge(r, c, job) && k <= |MergeTrace(job, f)| && r2.views == r.views[c := CutView(r.views[c], job, f, k)]
    requires r2.open.Some? && AfterThrow(r.open.value, r2.open.value, c, job, f, k)
    ensures Serving(r2) && (NoneInFlight(r2.views) <==> NoRecord(CutView(r.views[c], job, f, k)))
  {
    OneInFlight(r.views, c, r2.views[c]);
  }

  lemma OpenSeals(capacities: seq<nat>, r: Run, m: Table, r2: Run)
    requires Inv(capacities, r, m) && r.open.None? && Opening(r, r2)
    ensures NoneInFlight(r2.views)
  {
    forall c | 0 <= c < |r2.views| ensures NoRecord(r2.views[c]) { OpenedClass(r.views[c], Slice(m, capacities, c)); }
  }

  /** What `find` may answer: an entry of an active version, or that no active version has the key. */
  ghost predicate FindAnswers(s: State, k: Key, r: Option<Entry>) {
    && Shaped(s)
    && (r.Some? ==> exists f :: f in Actives(s) && Stores(s.files, f, k) && s.files[f][k] == r.value)
    && (r.None? ==> forall f :: f in Actives(s) ==> !Stores(s.files, f, k))
  }

  /** Refinement. `find`, and `resolve` for what it does not answer, say of every key exactly what one map
      would: its entry when it holds one, and that it is absent when it does not. */
  lemma FindThenResolve(capacities: seq<nat>, r: Run, m: Table, k: Key, found: Option<Entry>, height: nat, resolved: Resolved)
    requires Inv(capacities, r, m) && r.open.Some?
    requires FindAnswers(r.open.value, k, found)
    requires Exact(r.open.value, [Request(k, height)], resolved)
    ensures found.Some? ==> k in m && m[k] == found.value
    ensures found.None? ==> (k in m <==> k in resolved.found) && (k in m ==> resolved.found[k] == m[k])
    ensures found.None? ==> (k !in m <==> Names(resolved.absent, k))
  {
    var s := r.open.value;
    if found.Some? {
      FoundAgrees(capacities, s, m, k, found.value);
    } else {
      ResolvedAgrees(capacities, s, m, k, height, resolved);
    }
  }

  lemma FoundAgrees(capacities: seq<nat>, s: State, m: Table, k: Key, entry: Entry)
    requires Shaped(s) && Contains(s.files, m, capacities) && FindAnswers(s, k, Some(entry))
    ensures k in m && m[k] == entry
  {
  }

  lemma ResolvedAgrees(capacities: seq<nat>, s: State, m: Table, k: Key, height: nat, resolved: Resolved)
    requires Shaped(s) && Contains(s.files, m, capacities) && FindAnswers(s, k, None)
    requires Exact(s, [Request(k, height)], resolved)
    ensures (k in m <==> k in resolved.found) && (k in m ==> resolved.found[k] == m[k])
    ensures k !in m <==> Names(resolved.absent, k)
  {
    assert Names([Request(k, height)], k) by { assert [Request(k, height)][0].key == k; }
    if k in m { OldHasIt(capacities, s, m, k); }
    if k in resolved.found {
      var g :| HoldsAs(s, g, k, resolved.found[k]);
      assert Stores(s.files, g, k);
    }
  }

  /** A stored key that no active map has lies in an older version, with its entry. */
  lemma OldHasIt(capacities: seq<nat>, s: State, m: Table, k: Key)
    requires Shaped(s) && Contains(s.files, m, capacities) && k in m && FindAnswers(s, k, None)
    ensures exists f :: HoldsAs(s, f, k, m[k])
  {
    var f :| Stores(s.files, f, k);
    assert Older(s, f) by {
      if IsActive(s, f) { LastIsActive(s, f.cls); }
    }
    assert HoldsAs(s, f, k, m[k]);
  }
}
