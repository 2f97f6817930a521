/**
  What the compactor of one class leaves of a whole instance: the step that joins its contracts to the runs
  and to the durability register.
*/
module Instances {
  import opened Basics
  import opened Disk
  import opened Merge
  import opened MergeEffect
  import opened Greedy
  import opened BuildLoop
  import opened Grouping
  import opened Compaction
  import opened StoreState
  import opened Insertion
  import opened Durability
  import opened Runs
  import opened Recovery
  import opened Thrown

  function FilesOf(c: nat, tables: map<nat, Table>): Files {
    map v | v in tables :: File(c, v) := tables[v]
  }

  function FileNames(c: nat, versions: set<nat>): set<File> {
    set v | v in versions :: File(c, v)
  }

  /** The instance with one class as its compactor left it. */
  function WithClass(s: State, c: nat, catalogue: seq<nat>, tables: map<nat, Table>, highest: nat,
                     dirty: set<nat>, durable: set<nat>, latched: bool): State
    requires c < |s.catalogs| && c < |s.highest|
  {
    s.(files := (map f | f in s.files && f.cls != c :: s.files[f]) + FilesOf(c, tables),
       catalogs := s.catalogs[c := catalogue],
       highest := s.highest[c := highest],
       dirty := (set f | f in s.dirty && f.cls != c) + FileNames(c, dirty),
       durable := (set f | f in s.durable && f.cls != c) + FileNames(c, durable),
       cleanup := s.cleanup || latched)
  }

  /** What the contracts of the compactor promise whatever happened: the catalogue is in order and names what
      the class holds, and what is registered or durable is in it. */
  ghost predicate ClassInOrder(catalogue: seq<nat>, tables: map<nat, Table>, highest: nat, dirty: set<nat>, durable: set<nat>) {
    && CatalogOk(catalogue, highest)
    && (forall v :: v in catalogue <==> v in tables)
    && (forall v :: v in dirty ==> v in catalogue) && (forall v :: v in durable ==> v in catalogue)
  }

  lemma WithClassIsShaped(s: State, c: nat, catalogue: seq<nat>, tables: map<nat, Table>, highest: nat,
                          dirty: set<nat>, durable: set<nat>, latched: bool)
    requires Shaped(s) && c < |s.catalogs| && ClassInOrder(catalogue, tables, highest, dirty, durable)
    ensures Shaped(WithClass(s, c, catalogue, tables, highest, dirty, durable, latched))
  {
    var s2 := WithClass(s, c, catalogue, tables, highest, dirty, durable, latched);
    forall f ensures f in s2.files <==> f.cls < |s2.catalogs| && f.version in s2.catalogs[f.cls] {
      assert f == File(f.cls, f.version);
    }
    forall f | f in s2.dirty ensures f in s2.files { assert f.cls != c ==> f in s.files; }
    forall f | f in s2.durable ensures f in s2.files { assert f.cls != c ==> f in s.files; }
  }

  lemma WithClassHere(s: State, c: nat, catalogue: seq<nat>, tables: map<nat, Table>, highest: nat,
                      dirty: set<nat>, durable: set<nat>, latched: bool)
    requires c < |s.catalogs| && c < |s.highest| && forall v :: v in catalogue <==> v in tables
    ensures ClassTables(WithClass(s, c, catalogue, tables, highest, dirty, durable, latched), c) == tables
  {
    var files := WithClass(s, c, catalogue, tables, highest, dirty, durable, latched).files;
    forall v: nat ensures File(c, v) in files <==> v in tables {}
    forall v | v in tables ensures files[File(c, v)] == tables[v] {}
  }

  lemma WithClassElsewhere(s: State, c: nat, catalogue: seq<nat>, tables: map<nat, Table>, highest: nat,
                           dirty: set<nat>, durable: set<nat>, latched: bool, d: nat)
    requires c < |s.catalogs| && c < |s.highest| && d < |s.catalogs| && d != c
    ensures var s2 := WithClass(s, c, catalogue, tables, highest, dirty, durable, latched);
            s2.catalogs[d] == s.catalogs[d] && ClassTables(s2, d) == ClassTables(s, d)
  {
    var files := WithClass(s, c, catalogue, tables, highest, dirty, durable, latched).files;
    forall v: nat ensures File(d, v) in files <==> File(d, v) in s.files {}
    forall v: nat | File(d, v) in s.files ensures files[File(d, v)] == s.files[File(d, v)] {}
  }

  lemma WithClassTables(s: State, c: nat, catalogue: seq<nat>, tables: map<nat, Table>, highest: nat,
                        dirty: set<nat>, durable: set<nat>, latched: bool)
    requires Shaped(s) && c < |s.catalogs| && ClassInOrder(catalogue, tables, highest, dirty, durable)
    ensures var s2 := WithClass(s, c, catalogue, tables, highest, dirty, durable, latched);
            && ClassTables(s2, c) == tables
            && forall d :: 0 <= d < |s.catalogs| && d != c ==> s2.catalogs[d] == s.catalogs[d] && ClassTables(s2, d) == ClassTables(s, d)
  {
    WithClassHere(s, c, catalogue, tables, highest, dirty, durable, latched);
    forall d | 0 <= d < |s.catalogs| && d != c
      ensures var s2 := WithClass(s, c, catalogue, tables, highest, dirty, durable, latched);
              s2.catalogs[d] == s.catalogs[d] && ClassTables(s2, d) == ClassTables(s, d)
    {
      WithClassElsewhere(s, c, catalogue, tables, highest, dirty, durable, latched, d);
    }
  }

  /** The class as the compactor has it. */
  ghost predicate SeenAs(s: State, c: nat, a: Snapshot) {
    && c < |s.catalogs| && c < |s.highest|
    && a.catalogue == s.catalogs[c] && a.highest == s.highest[c] && a.dirty == OwedOf(s, c)
    && TablesOfCatalogue(ViewOf(a.disk), a.catalogue) == ClassTables(s, c)
  }

  /** The instance with the class as the compactor left it. */
  ghost function Leaving(s: State, c: nat, b: Snapshot, durable: set<nat>): State
    requires c < |s.catalogs| && c < |s.highest|
  {
    WithClass(s, c, b.catalogue, TablesOfCatalogue(ViewOf(b.disk), b.catalogue), b.highest, b.dirty, durable, b.cleanup)
  }

  /** What a merge syncs stays synced, and nothing else becomes so. */
  ghost predicate StaysDurable(s: State, c: nat, catalogue: seq<nat>, durable: set<nat>)
    requires c < |s.catalogs|
  {
    forall v :: v in catalogue ==> (v in durable <==> v !in s.catalogs[c] || File(c, v) in s.durable)
  }

  /** One merge, as `Compaction.Compactor.MergeVersions` accounts for it, is one merge of a run; and one that an
      exception left is one that an exception left. */
  lemma MergesAsInRuns(s: State, c: nat, a: Snapshot, b: Snapshot, durable: set<nat>, job: Job, f: Fate, luck: Luck, outcome: Outcome)
    requires Shaped(s) && SeenAs(s, c, a) && Went(a, b, job, f, luck, outcome)
    requires forall v :: v in job.plan.sources ==> v in s.catalogs[c]
    requires ClassInOrder(b.catalogue, TablesOfCatalogue(ViewOf(b.disk), b.catalogue), b.highest, b.dirty, durable)
    requires StaysDurable(s, c, b.catalogue, durable)
    ensures luck.escapes.None? ==> AfterMerge(s, Leaving(s, c, b, durable), c, job, f)
    ensures luck.escapes.Some? ==> AfterThrow(s, Leaving(s, c, b, durable), c, job, f, StepsDone(job, f, luck.escapes.value))
  {
    TablesAreListed(s, c);
    if luck.escapes.Some? && !Tells(job, f, luck) {
      BrokenAsInRuns(s, c, a, b, durable, job, f, luck, outcome);
    } else {
      EndedAsInRuns(s, c, a, b, durable, job, f, luck, outcome);
      if luck.escapes.Some? { ToldMeans(job, f, luck); }
    }
  }

  lemma ToldMeans(job: Job, f: Fate, luck: Luck)
    requires luck.escapes.Some? && Tells(job, f, luck)
    ensures Told(job, f, StepsDone(job, f, luck.escapes.value)) && f.build == Built && Catalogued(f)
  {
  }

  /** Told of the merge, or run to its end. */
  lemma EndedAsInRuns(s: State, c: nat, a: Snapshot, b: Snapshot, durable: set<nat>, job: Job, f: Fate, luck: Luck, outcome: Outcome)
    requires Shaped(s) && SeenAs(s, c, a) && Went(a, b, job, f, luck, outcome) && (luck.escapes.None? || Tells(job, f, luck))
    requires forall v :: v in job.plan.sources ==> v in ClassTables(s, c)
    requires ClassInOrder(b.catalogue, TablesOfCatalogue(ViewOf(b.disk), b.catalogue), b.highest, b.dirty, durable)
    requires StaysDurable(s, c, b.catalogue, durable)
    ensures AfterSteps(s, Leaving(s, c, b, durable), c, job, f)
    ensures Leaving(s, c, b, durable).cleanup == (s.cleanup || outcome.Latched?)
  {
    var after := TablesOfCatalogue(ViewOf(b.disk), b.catalogue);
    assert CatalogOk(s.catalogs[c], s.highest[c]);
    if luck.escapes.Some? { ToldMeans(job, f, luck); }
    StepsAsInRuns(s, c, after, b.catalogue, b.highest, b.dirty, durable, b.cleanup, job, f, Tells(job, f, luck));
  }

  lemma BrokenAsInRuns(s: State, c: nat, a: Snapshot, b: Snapshot, durable: set<nat>, job: Job, f: Fate, luck: Luck, outcome: Outcome)
    requires Shaped(s) && SeenAs(s, c, a) && Went(a, b, job, f, luck, outcome) && luck.escapes.Some? && !Tells(job, f, luck)
    requires ClassInOrder(b.catalogue, TablesOfCatalogue(ViewOf(b.disk), b.catalogue), b.highest, b.dirty, durable)
    requires StaysDurable(s, c, b.catalogue, durable)
    ensures AfterThrow(s, Leaving(s, c, b, durable), c, job, f, StepsDone(job, f, luck.escapes.value))
  {
    WentUntold(s, c, a, b, job, f, luck, outcome);
    LeavingUntold(s, c, b, durable);
    OnlyIssuedAsInRuns(s, Leaving(s, c, b, durable), c, b.highest, job, f, luck);
  }

  /** Not told, the class is as it was, but for an identity that may be issued. */
  lemma WentUntold(s: State, c: nat, a: Snapshot, b: Snapshot, job: Job, f: Fate, luck: Luck, outcome: Outcome)
    requires SeenAs(s, c, a) && Went(a, b, job, f, luck, outcome) && luck.escapes.Some? && !Tells(job, f, luck)
    ensures b.catalogue == s.catalogs[c] && TablesOfCatalogue(ViewOf(b.disk), b.catalogue) == ClassTables(s, c)
    ensures b.dirty == OwedOf(s, c) && !b.cleanup && b.highest == if Issues(job, f, luck) then job.plan.target else s.highest[c]
  {
  }

  lemma LeavingUntold(s: State, c: nat, b: Snapshot, durable: set<nat>)
    requires Shaped(s) && c < |s.catalogs| && b.catalogue == s.catalogs[c] && TablesOfCatalogue(ViewOf(b.disk), b.catalogue) == ClassTables(s, c)
    requires b.dirty == OwedOf(s, c) && !b.cleanup
    requires StaysDurable(s, c, s.catalogs[c], durable) && forall v :: v in durable ==> v in s.catalogs[c]
    ensures Leaving(s, c, b, durable) == s.(highest := s.highest[c := b.highest])
  {
    UntoldAsInRuns(s, c, b.highest, durable);
  }

  lemma OnlyIssuedAsInRuns(s: State, s2: State, c: nat, highest: nat, job: Job, f: Fate, luck: Luck)
    requires luck.escapes.Some? && !Tells(job, f, luck) && c < |s.highest| && s2 == s.(highest := s.highest[c := highest])
    requires highest == if Issues(job, f, luck) then job.plan.target else s.highest[c]
    ensures AfterThrow(s, s2, c, job, f, StepsDone(job, f, luck.escapes.value))
  {
    UntoldMeans(job, f, luck);
    if highest == s.highest[c] { assert s.highest[c := highest] == s.highest; }
  }

  lemma UntoldMeans(job: Job, f: Fate, luck: Luck)
    requires luck.escapes.Some? && !Tells(job, f, luck)
    ensures var k := StepsDone(job, f, luck.escapes.value); Untold(job, f, k) && (Issues(job, f, luck) ==> Told(job, f, k))
  {
  }

  lemma StepsAsInRuns(s: State, c: nat, after: map<nat, Table>, catalogue: seq<nat>, highest: nat,
                      dirty: set<nat>, durable: set<nat>, latched: bool, job: Job, f: Fate, told: bool)
    requires Shaped(s) && c < |s.catalogs| && ClassInOrder(catalogue, after, highest, dirty, durable)
    requires (forall v :: v in job.plan.sources ==> v in ClassTables(s, c)) && told == (f.build == Built && Catalogued(f))
    requires after == ServedAfter(ClassTables(s, c), job, told) && job.plan.target !in s.catalogs[c]
    requires highest == if told then job.plan.target else s.highest[c]
    requires StaysDurable(s, c, catalogue, durable)
    ensures AfterSteps(s, WithClass(s, c, catalogue, after, highest, dirty, durable, latched), c, job, f)
  {
    WithClassIsShaped(s, c, catalogue, after, highest, dirty, durable, latched);
    WithClassTables(s, c, catalogue, after, highest, dirty, durable, latched);
    MergeDurable(s, c, after, catalogue, highest, dirty, durable, latched, job, f, told);
  }

  lemma MergeDurable(s: State, c: nat, after: map<nat, Table>, catalogue: seq<nat>, highest: nat,
                     dirty: set<nat>, durable: set<nat>, latched: bool, job: Job, f: Fate, told: bool)
    requires Shaped(s) && c < |s.catalogs| && ClassInOrder(catalogue, after, highest, dirty, durable)
    requires (forall v :: v in job.plan.sources ==> v in ClassTables(s, c)) && told == (f.build == Built && Catalogued(f))
    requires after == ServedAfter(ClassTables(s, c), job, told) && job.plan.target !in s.catalogs[c]
    requires StaysDurable(s, c, catalogue, durable)
    ensures DurableMerged(s, WithClass(s, c, catalogue, after, highest, dirty, durable, latched), c, job, f)
  {
    var s2 := WithClass(s, c, catalogue, after, highest, dirty, durable, latched);
    TablesAreListed(s, c);
    forall g ensures g in s2.durable <==> g in s2.files && (g in s.durable || (told && g == File(c, job.plan.target))) {
      if g.cls == c { assert g == File(c, g.version); } else { assert g in s.durable ==> g in s.files; }
    }
  }

  /** A class put back as it was is the instance as it was, but for an identity that may be issued. */
  lemma UntoldAsInRuns(s: State, c: nat, highest: nat, durable: set<nat>)
    requires Shaped(s) && c < |s.catalogs| && StaysDurable(s, c, s.catalogs[c], durable) && forall v :: v in durable ==> v in s.catalogs[c]
    ensures WithClass(s, c, s.catalogs[c], ClassTables(s, c), highest, OwedOf(s, c), durable, false) == s.(highest := s.highest[c := highest])
  {
    UntoldFiles(s, c);
    UntoldBooks(s, c, durable);
    assert s.catalogs[c := s.catalogs[c]] == s.catalogs;
  }

  lemma UntoldFiles(s: State, c: nat)
    requires Shaped(s) && c < |s.catalogs|
    ensures (map f | f in s.files && f.cls != c :: s.files[f]) + FilesOf(c, ClassTables(s, c)) == s.files
  {
    var files := (map f | f in s.files && f.cls != c :: s.files[f]) + FilesOf(c, ClassTables(s, c));
    forall f ensures (f in files <==> f in s.files) && (f in s.files ==> files[f] == s.files[f]) {
      if f.cls == c { UntoldFile(s, c, f.version); }
    }
  }

  lemma UntoldFile(s: State, c: nat, v: nat)
    requires Shaped(s) && c < |s.catalogs|
    ensures var ours := FilesOf(c, ClassTables(s, c));
            (File(c, v) in ours <==> File(c, v) in s.files) && (File(c, v) in s.files ==> ours[File(c, v)] == s.files[File(c, v)])
  {
    TablesAreListed(s, c);
  }

  lemma UntoldBooks(s: State, c: nat, durable: set<nat>)
    requires Shaped(s) && c < |s.catalogs| && StaysDurable(s, c, s.catalogs[c], durable) && forall v :: v in durable ==> v in s.catalogs[c]
    ensures (set f | f in s.dirty && f.cls != c) + FileNames(c, OwedOf(s, c)) == s.dirty
    ensures (set f | f in s.durable && f.cls != c) + FileNames(c, durable) == s.durable
  {
    OwedMeans(s, c);
    forall f ensures f in (set f | f in s.dirty && f.cls != c) + FileNames(c, OwedOf(s, c)) <==> f in s.dirty { assert f == File(f.cls, f.version); }
    forall f ensures f in (set f | f in s.durable && f.cls != c) + FileNames(c, durable) <==> f in s.durable {
      assert f == File(f.cls, f.version) && (f in s.durable ==> f in s.files);
    }
  }

  lemma OwedAgree(s: State, c: nat, catalogue: seq<nat>, tables: map<nat, Table>, highest: nat,
                  dirty: set<nat>, durable: set<nat>, latched: bool)
    requires c < |s.catalogs| && c < |s.highest|
    ensures OwedOf(WithClass(s, c, catalogue, tables, highest, dirty, durable, latched), c) == dirty
  {
    var s2 := WithClass(s, c, catalogue, tables, highest, dirty, durable, latched);
    OwedMeans(s2, c);
    forall v ensures v in OwedOf(s2, c) <==> v in dirty {}
  }

  lemma WithClassOutside(s: State, c: nat, catalogue: seq<nat>, tables: map<nat, Table>, highest: nat,
                         dirty: set<nat>, durable: set<nat>, latched: bool)
    requires c < |s.catalogs| && c < |s.highest|
    ensures SameOutside(s, WithClass(s, c, catalogue, tables, highest, dirty, durable, latched), c)
  {
  }

  /** A compaction, however it ended, as `Compaction.Compactor.MergeGroups` accounts for it, is what the durability
      register is judged by. What a merge syncs stays synced. */
  lemma GroupsAreCompacted(s: State, c: nat, a: Account, now: map<nat, Table>, catalogue: seq<nat>, highest: nat,
                           dirty: set<nat>, durable: set<nat>, latched: bool, limit: nat)
    requires Shaped(s) && c < |s.catalogs| && ClassInOrder(catalogue, now, highest, dirty, durable)
    requires a.before == ClassTables(s, c) && a.top == s.highest[c]
    requires Accounts(a, now, s.catalogs[c], |catalogue|, limit)
    requires Registers(s.catalogs[c], catalogue, OwedOf(s, c), dirty, s.highest[c])
    requires forall v :: v in catalogue ==> (v in durable <==> v !in s.catalogs[c] || File(c, v) in s.durable)
    ensures Compacted(s, WithClass(s, c, catalogue, now, highest, dirty, durable, latched), c, a, now, limit)
  {
    WithClassIsShaped(s, c, catalogue, now, highest, dirty, durable, latched);
    WithClassHere(s, c, catalogue, now, highest, dirty, durable, latched);
    WithClassOutside(s, c, catalogue, now, highest, dirty, durable, latched);
    OwedAgree(s, c, catalogue, now, highest, dirty, durable, latched);
    WithClassDurable(s, c, catalogue, now, highest, dirty, durable, latched);
  }

  lemma WithClassDurable(s: State, c: nat, catalogue: seq<nat>, tables: map<nat, Table>, highest: nat,
                         dirty: set<nat>, durable: set<nat>, latched: bool)
    requires c < |s.catalogs| && c < |s.highest|
    ensures forall v :: File(c, v) in WithClass(s, c, catalogue, tables, highest, dirty, durable, latched).durable <==> v in durable
  {
  }

  // ------------------------------------------------------------------
  // Closing a version, whatever becomes of the compaction
  // ------------------------------------------------------------------

  /** Two neighbours that may become one: they share no key and fit together. */
  ghost predicate PairMerges(s: State, c: nat, i: nat, limit: nat)
    requires c < |s.catalogs|
  {
    && i + 2 <= |s.catalogs[c]| && SizesIn(s, c)[i] + SizesIn(s, c)[i + 1] <= limit
    && Disjoint(TablesAt(ClassTables(s, c), s.catalogs[c][i..i + 2]))
  }

  /** What a caller can check before the call, whatever may stop it: the version about to be closed is durable or owed
      a flush, or no two neighbours below it can be merged. */
  ghost predicate MayClose(s: State, c: nat, limit: nat)
    requires c < |s.catalogs| && |s.catalogs[c]| > 0
  {
    || ActiveOf(s, c) in s.durable || ActiveOf(s, c) in s.dirty
    || forall i: nat :: i + 2 < |s.catalogs[c]| ==> !PairMerges(s, c, i, limit)
  }

  /** No compaction forgets a version, wherever it stops. */
  ghost predicate NeverForgets(s: State, c: nat, limit: nat) {
    forall s2, a, now :: Compacted(s, s2, c, a, now, limit) ==> Registered(s2)
  }

  /** A run of several that does not take in the last version begins with such a pair. */
  lemma LongerRunHasPair(s: State, s2: State, c: nat, a: Account, now: map<nat, Table>, limit: nat, j: nat)
    requires Compacted(s, s2, c, a, now, limit) && LongerAt(a.cuts, j) && !TookLast(a.cuts, |s.catalogs[c]|)
    ensures a.cuts[j] + 2 < |s.catalogs[c]| && PairMerges(s, c, a.cuts[j], limit)
  {
    SizesAgree(s, c);
    RunHasPair(a, now, s.catalogs[c], |s2.catalogs[c]|, limit, j);
    PairFits(a, now, s.catalogs[c], |s2.catalogs[c]|, limit, j);
  }

  lemma RunHasPair(a: Account, now: map<nat, Table>, versions: seq<nat>, files: nat, limit: nat, j: nat)
    requires Accounts(a, now, versions, files, limit) && LongerAt(a.cuts, j) && !TookLast(a.cuts, |versions|)
    ensures var x := a.cuts[j]; x + 2 < |versions| && Disjoint(TablesAt(a.before, versions[x..x + 2]))
  {
    var x, y := a.cuts[j], a.cuts[j + 1];
    assert Consumed(a.before, now, versions, a.cuts, a.made, a.top) && |a.cuts| == |a.made| + 1;
    assert RunAt(a.before, now, versions, x, y, a.made[j], a.top);
    if y == |versions| && j + 1 < |a.made| { CutsGrow(a.before, now, versions, a.cuts, a.made, a.top, j + 1, |a.made|); }
    PairIsApart(a.before, versions, x, y);
  }

  lemma PairFits(a: Account, now: map<nat, Table>, versions: seq<nat>, files: nat, limit: nat, j: nat)
    requires Accounts(a, now, versions, files, limit) && LongerAt(a.cuts, j)
    ensures var x := a.cuts[j]; x + 2 <= |versions| && Sizes(a.before, versions)[x] + Sizes(a.before, versions)[x + 1] <= limit
  {
    var xs, x, y := Sizes(a.before, versions), a.cuts[j], a.cuts[j + 1];
    assert Greedy.Fits(xs, limit, x, y);
    FitsWithin(xs, limit, x, y, x, x + 2);
    assert Total(xs, x + 2) == Total(xs, x + 1) + xs[x + 1] && Total(xs, x + 1) == Total(xs, x) + xs[x];
  }

  lemma PairIsApart(ts: map<nat, Table>, versions: seq<nat>, x: nat, y: nat)
    requires x + 2 <= y <= |versions| && Disjoint(TablesAt(ts, versions[x..y]))
    ensures Disjoint(TablesAt(ts, versions[x..x + 2]))
  {
    var pair, run := TablesAt(ts, versions[x..x + 2]), TablesAt(ts, versions[x..y]);
    assert pair == [run[0], run[1]];
  }

  /** The versions before `i` left as they are. */
  lemma {:induction false} SinglesSoFar(before: map<nat, Table>, versions: seq<nat>, top: nat, limit: nat, i: nat) returns (a: Account)
    requires Ascending(versions) && (forall v :: v in versions ==> v <= top) && (forall v :: v in before <==> v in versions)
    requires i <= |versions|
    ensures Accounts(a, before, versions, |versions|, limit) && Reached(a) == i && a.before == before && a.top == top
  {
    if i == 0 {
      a := Account(before, [0], [], top);
      AccountAtFirst(before, versions, top, limit);
    } else {
      a := SinglesSoFar(before, versions, top, limit, i - 1);
      AccountSingle(a, before, versions, |versions|, limit);
      a := a.(cuts := a.cuts + [i], made := a.made + [versions[i - 1]]);
    }
  }

  /** Two neighbours merged and nothing after them: a compaction that some fault stopped there. */
  lemma StoppedAfterPair(before: map<nat, Table>, versions: seq<nat>, top: nat, limit: nat, i: nat) returns (a: Account, now: map<nat, Table>)
    requires Ascending(versions) && (forall v :: v in versions ==> v <= top) && (forall v :: v in before <==> v in versions)
    requires i + 2 <= |versions| && Sizes(before, versions)[i] + Sizes(before, versions)[i + 1] <= limit
    requires Disjoint(TablesAt(before, versions[i..i + 2]))
    ensures Accounts(a, now, versions, |versions| - 1, limit) && a.before == before && a.top == top
    ensures Reached(a) == i + 2 && SomeLonger(a.cuts)
    ensures forall v :: v in now <==> (v in versions && v !in versions[i..i + 2]) || v == top + 1
  {
    var b := SinglesSoFar(before, versions, top, limit, i);
    now := MergedPair(before, versions, top, i);
    MergesConserve(before, now, versions[i..i + 2], top + 1, top);
    NeighboursFit(Sizes(before, versions), limit, i);
    a := b.(cuts := b.cuts + [i + 2], made := b.made + [top + 1]);
    AccountMerged(b, before, now, versions, |versions|, limit, i + 2, top + 1, top);
    LongerAtLast(b.cuts, i);
  }

  lemma LongerAtLast(cuts: seq<nat>, i: nat)
    requires |cuts| > 0 && cuts[|cuts| - 1] == i
    ensures SomeLonger(cuts + [i + 2])
  {
    assert LongerAt(cuts + [i + 2], |cuts| - 1);
  }

  lemma NeighboursFit(xs: seq<nat>, limit: nat, i: nat)
    requires i + 2 <= |xs| && xs[i] + xs[i + 1] <= limit
    ensures Greedy.Fits(xs, limit, i, i + 2)
  {
    assert Total(xs, i + 2) == Total(xs, i + 1) + xs[i + 1] && Total(xs, i + 1) == Total(xs, i) + xs[i];
  }

  lemma MergedPair(before: map<nat, Table>, versions: seq<nat>, top: nat, i: nat) returns (now: map<nat, Table>)
    requires (forall v :: v in versions ==> v <= top) && (forall v :: v in before <==> v in versions)
    requires i + 2 <= |versions| && Disjoint(TablesAt(before, versions[i..i + 2]))
    ensures Merges(before, now, versions[i..i + 2], top + 1, top)
    ensures forall v :: v in now <==> (v in versions && v !in versions[i..i + 2]) || v == top + 1
  {
    var pair := versions[i..i + 2];
    forall v | v in pair ensures v in before { assert v in versions; }
    now := Replaced(before, pair, top + 1);
  }

  /** The catalogue after that. */
  lemma RowAfterPair(versions: seq<nat>, top: nat, i: nat) returns (after: seq<nat>)
    requires CatalogOk(versions, top) && i + 2 <= |versions|
    ensures CatalogOk(after, top + 1) && |after| == |versions| - 1
    ensures forall v :: v in after <==> (v in versions && v !in versions[i..i + 2]) || v == top + 1
  {
    var pair := versions[i..i + 2];
    var less := Without(versions, set v | v in pair);
    after := less + [top + 1];
    AscendingSnoc(less, top + 1);
    forall v ensures v in after <==> (v in versions && v !in pair) || v == top + 1 {}
    forall v | v in pair ensures v in versions {}
    SupersedesCount(after, versions, pair, top + 1);
  }

  function OwedStill(s: State, c: nat, after: seq<nat>): (r: set<nat>)
    ensures forall v :: v in r <==> v in OwedOf(s, c) && v in after
  {
    set v | v in after && v in OwedOf(s, c)
  }

  function DurableThen(s: State, c: nat, after: seq<nat>): (r: set<nat>)
    requires c < |s.catalogs|
    ensures forall v :: v in r <==> v in after && (v !in s.catalogs[c] || File(c, v) in s.durable)
  {
    set v | v in after && (v !in s.catalogs[c] || File(c, v) in s.durable)
  }

  /** The instance it leaves. */
  lemma SomeCompaction(s: State, c: nat, a: Account, now: map<nat, Table>, after: seq<nat>, limit: nat) returns (s2: State)
    requires Shaped(s) && c < |s.catalogs| && a.before == ClassTables(s, c) && a.top == s.highest[c]
    requires Accounts(a, now, s.catalogs[c], |after|, limit) && CatalogOk(after, s.highest[c] + 1)
    requires (forall v :: v in now <==> v in after) && forall v :: v in after ==> v in s.catalogs[c] || v > s.highest[c]
    ensures Compacted(s, s2, c, a, now, limit)
  {
    var top, dirty, durable := s.highest[c] + 1, OwedStill(s, c, after), DurableThen(s, c, after);
    s2 := WithClass(s, c, after, now, top, dirty, durable, false);
    ListsRegister(s, c, after);
    GroupsAreCompacted(s, c, a, now, after, top, dirty, durable, false, limit);
  }

  lemma OwedIsListed(s: State, c: nat)
    requires Shaped(s) && c < |s.catalogs|
    ensures forall v :: v in OwedOf(s, c) ==> v in s.catalogs[c]
  {
    OwedMeans(s, c);
    forall v | v in OwedOf(s, c) ensures v in s.catalogs[c] { assert File(c, v) in s.files; }
  }

  lemma ListsRegister(s: State, c: nat, after: seq<nat>)
    requires Shaped(s) && c < |s.catalogs| && forall v :: v in after ==> v in s.catalogs[c] || v > s.highest[c]
    ensures Registers(s.catalogs[c], after, OwedOf(s, c), OwedStill(s, c, after), s.highest[c])
  {
    OwedIsListed(s, c);
  }

  lemma StoppedThere(s: State, s2: State, c: nat, a: Account, now: map<nat, Table>, limit: nat)
    requires Compacted(s, s2, c, a, now, limit) && Registered(s) && Reached(a) < |s.catalogs[c]| && SomeLonger(a.cuts)
    requires ActiveOf(s, c) !in s.durable && ActiveOf(s, c) !in s.dirty
    ensures !Registered(s2)
  {
    CompactionForgets(s, s2, c, a, now, limit);
  }

  lemma TablesAreListed(s: State, c: nat)
    requires Shaped(s) && c < |s.catalogs|
    ensures forall v :: v in ClassTables(s, c) <==> v in s.catalogs[c]
  {
    forall v ensures v in ClassTables(s, c) <==> v in s.catalogs[c] { assert v in s.catalogs[c] ==> File(c, v) in s.files; }
  }

  lemma PairIsForgotten(s: State, c: nat, limit: nat, i: nat) returns (s2: State, a: Account, now: map<nat, Table>)
    requires Shaped(s) && Registered(s) && c < |s.catalogs| && i + 2 < |s.catalogs[c]| && PairMerges(s, c, i, limit)
    requires ActiveOf(s, c) !in s.durable && ActiveOf(s, c) !in s.dirty
    ensures Compacted(s, s2, c, a, now, limit) && !Registered(s2)
  {
    var versions := s.catalogs[c];
    assert CatalogOk(versions, s.highest[c]);
    TablesAreListed(s, c);
    SizesAgree(s, c);
    a, now := StoppedAfterPair(ClassTables(s, c), versions, s.highest[c], limit, i);
    var after := RowAfterPair(versions, s.highest[c], i);
    s2 := SomeCompaction(s, c, a, now, after, limit);
    StoppedThere(s, s2, c, a, now, limit);
  }

  /** Whatever may stop it, compaction never forgets a version if and only if the one it closes is durable or owed a
      flush, or there are no two neighbours below it to merge. */
  lemma ClosingIsSafe(s: State, c: nat, limit: nat)
    requires Shaped(s) && Registered(s) && c < |s.catalogs|
    ensures |s.catalogs[c]| > 0 && (NeverForgets(s, c, limit) <==> MayClose(s, c, limit))
  {
    RowIsInOrder(s, c);
    if MayClose(s, c, limit) {
      forall s2, a, now | Compacted(s, s2, c, a, now, limit) ensures Registered(s2) {
        CompactionForgets(s, s2, c, a, now, limit);
        if Forgets(s, c, a) {
          var j: nat :| LongerAt(a.cuts, j);
          LongerRunHasPair(s, s2, c, a, now, limit, j);
        }
      }
    } else {
      var i: nat :| i + 2 < |s.catalogs[c]| && PairMerges(s, c, i, limit);
      var s2, a, now := PairIsForgotten(s, c, limit, i);
    }
  }
}
