/**
  An input for every place where the code falls short: the premises of each condition are met by it, and
  the failure follows.
*/
module Witnesses {
  import opened Basics
  import opened Disk
  import opened Recovery
  import opened CrashSafety
  import opened Merge
  import opened MergeEffect
  import opened Settling
  import opened CrashRuns
  import opened Limits
  import opened BuildLoop
  import opened Greedy
  import opened Grouping
  import opened Compaction
  import opened StoreState
  import opened Insertion
  import Deletion
  import opened Durability
  import opened Runs
  import opened Backing
  import opened Thrown
  import opened Instances

  // ------------------------------------------------------------------
  // A directory at rest
  // ------------------------------------------------------------------

  /** Versions 0 and on, one file each, everything synced and nothing pending. */
  function Shelf(tables: seq<Table>): Disk {
    Disk(seq(|tables|, i requires 0 <= i < |tables| => Inode(Rows(tables[i], None), true)),
         map v: nat | v < |tables| :: Data(v) := v, [])
  }

  function Shelved(tables: seq<Table>): map<nat, Table> { map v: nat | v < |tables| :: tables[v] }

  lemma ShelfShows(tables: seq<Table>)
    ensures WellFormed(Shelf(tables)) && NoRecord(ViewOf(Shelf(tables)))
    ensures Tables(ViewOf(Shelf(tables))) == Shelved(tables)
    ensures forall v: nat :: Data(v) in ViewOf(Shelf(tables)) <==> v < |tables|
    ensures RecordsOk(ViewOf(Shelf(tables)))
  {
    var d := Shelf(tables);
    assert Visible(d) == d.durable;
    ShelfViews(d.inodes, d.durable, tables);
  }

  lemma ShelfViews(inodes: seq<Inode>, dir: Dir, tables: seq<Table>)
    requires |inodes| == |tables| && forall i :: 0 <= i < |tables| ==> inodes[i] == Inode(Rows(tables[i], None), true)
    requires dir == map v: nat | v < |tables| :: Data(v) := v
    ensures InRange(inodes, dir) && NoRecord(ViewIn(inodes, dir)) && RecordsOk(ViewIn(inodes, dir))
    ensures forall v: nat :: Data(v) in ViewIn(inodes, dir) <==> v < |tables|
    ensures Tables(ViewIn(inodes, dir)) == Shelved(tables)
  {
    var view := ViewIn(inodes, dir);
    forall v: nat ensures Data(v) in view <==> v < |tables| { assert Data(v) in dir <==> v < |tables|; }
    forall v: nat | v < |tables| ensures view[Data(v)] == Rows(tables[v], None) { assert dir[Data(v)] == v; }
    ShelfTables(view, tables);
  }

  lemma ShelfTables(view: View, tables: seq<Table>)
    requires forall v: nat :: Data(v) in view <==> v < |tables|
    requires forall v: nat :: v < |tables| ==> view[Data(v)] == Rows(tables[v], None)
    ensures Tables(view) == Shelved(tables)
  {
    TablesOf(view);
  }

  lemma ShelfIsSafe(model: CrashModel, tables: seq<Table>, g: Goal)
    requires Partition(Shelved(tables), g.entries)
    ensures WellFormed(Shelf(tables)) && Safe(model, Shelf(tables), g) && Quiet(model, Shelf(tables), |tables|)
  {
    var d := Shelf(tables);
    ShelfShows(tables);
    RecordsAreNamed(ViewOf(d));
    SettledMeansAll(ViewOf(d));
    forall dir | Possible(model, d, dir) ensures Sound(d.inodes, dir, g) {
      assert dir == d.durable && ViewIn(d.inodes, dir) == ViewOf(d);
    }
    forall dir | Live(model, d, dir) ensures NothingInFlight(dir, |tables|) {
      assert dir == d.durable;
    }
  }

  lemma EmptiesPartition(tables: seq<Table>)
    requires forall i :: 0 <= i < |tables| ==> tables[i] == map[]
    ensures Partition(Shelved(tables), map[])
  {
  }

  /** Everything works but what is named here. */
  function FateWith(targetBarrier: bool, finalBarrier: bool): Fate {
    Fate(Built, true, true, true, true, true, true, true, true, true, false, true, true, true, targetBarrier, true, {}, true, true, finalBarrier)
  }

  lemma ShelfFits(tables: seq<Table>, sources: seq<nat>, id: nat) returns (job: Job)
    requires Ascending(sources) && |sources| > 0 && id > 0 && forall s :: s in sources ==> s < |tables|
    ensures job.plan == Plan(|tables|, id, sources) && FitsView(job, ViewOf(Shelf(tables)))
  {
    ShelfShows(tables);
    job := Job(Plan(|tables|, id, sources), MergedOf(Tables(ViewOf(Shelf(tables))), sources));
  }

  // ------------------------------------------------------------------
  // 1. Sixty-five empty versions
  // ------------------------------------------------------------------

  function Empties(n: nat): (r: seq<Table>)
    ensures |r| == n && forall i :: 0 <= i < n ==> r[i] == map[]
  {
    seq(n, _ => map[])
  }

  function UpTo(n: nat): (r: seq<nat>)
    ensures |r| == n && Ascending(r) && forall i :: 0 <= i < n ==> r[i] == i
  {
    seq(n, i requires 0 <= i < n => i)
  }

  /** Sixty-five empty versions merge into one, with no fault at all; cut, the database does not open. */
  lemma SixtyFiveVersions(model: CrashModel) returns (job: Job)
    ensures var d, f := Shelf(Empties(65)), FateWith(true, true);
            && WellFormed(d) && Safe(model, d, Goal(map[], 65)) && Quiet(model, d, job.plan.target) && FitsView(job, ViewOf(d))
            && |job.plan.sources| == 65 && OutcomeOf(job, f) == Merged
            && !ReopensAtEveryCut(model, d, MergeTrace(job, f))
  {
    var g := Goal(map[], 65);
    EmptiesPartition(Empties(65));
    ShelfIsSafe(model, Empties(65), g);
    job := ShelfFits(Empties(65), UpTo(65), 1);
    WideMergesDoNotReopen(model, Shelf(Empties(65)), job, FateWith(true, true), g);
  }

  // ------------------------------------------------------------------
  // 2. A merge whose last barrier failed, then another
  // ------------------------------------------------------------------

  /** Versions 0 and 1 become 3 without the last barrier; then 2 and 3 become 4. */
  lemma TwoMergesInARow() returns (job: Job, next: Job)
    ensures var d, f := Shelf(Empties(3)), FateWith(true, false);
            && WellFormed(d) && Safe(AnySubset, d, Goal(map[], 2)) && Quiet(AnySubset, d, job.plan.target) && FitsView(job, ViewOf(d))
            && job.plan.sources == [0, 1] && OutcomeOf(job, f) == Merged
            && next.plan == Plan(4, 2, [2, 3]) && FitsView(next, ViewOf(Exec(d, MergeTrace(job, f))))
            && !ReopensAtEveryCut(AnySubset, Exec(d, MergeTrace(job, f)), MergeTrace(next, FateWith(true, true)))
  {
    var d, f, g := Shelf(Empties(3)), FateWith(true, false), Goal(map[], 2);
    EmptiesPartition(Empties(3));
    ShelfIsSafe(AnySubset, Empties(3), g);
    job := ShelfFits(Empties(3), [0, 1], 1);
    ShelfShows(Empties(3));
    next := AfterTheFirst(d, job, f, g);
    UnconfirmedRemovalsComeBack(d, job, f, next, FateWith(true, true), g);
  }

  lemma AfterTheFirst(d: Disk, job: Job, f: Fate, g: Goal) returns (next: Job)
    requires job.plan == Plan(3, 1, [0, 1]) && OutcomeOf(job, f) == Merged && g.widest == 2
    requires Safe(AnySubset, d, g) && Quiet(AnySubset, d, 3) && FitsView(job, ViewOf(d)) && 2 in Tables(ViewOf(d))
    requires forall v: nat :: Data(v) in ViewOf(d) ==> v < 3
    ensures next.plan == Plan(4, 2, [2, 3]) && FitsView(next, ViewOf(Exec(d, MergeTrace(job, f))))
  {
    MergeEnds(d, job, f, g);
    SafeIsCoherent(AnySubset, Exec(d, MergeTrace(job, f)), g);
    QuietSeesNoRecord(d, 3);
    MergedTables(d, job, f);
    next := NextFits(ViewOf(d), ViewOf(Exec(d, MergeTrace(job, f))), job);
  }

  lemma MergedTables(d: Disk, job: Job, f: Fate)
    requires WellFormed(d) && FitsView(job, ViewOf(d)) && NoRecord(ViewOf(d)) && OutcomeOf(job, f).Merged?
    ensures Tables(ViewOf(Exec(d, MergeTrace(job, f)))) == Replaced(Tables(ViewOf(d)), job.plan.sources, job.plan.target)
  {
    MergeEffects(ViewOf(d), job, f);
    ExecSees(d, MergeTrace(job, f));
  }

  lemma NextFits(view: View, after: View, job: Job) returns (next: Job)
    requires job.plan == Plan(3, 1, [0, 1]) && FitsView(job, view) && 2 in Tables(view)
    requires forall v: nat :: Data(v) in view ==> v < 3
    requires RecordsOk(after) && Tables(after) == Replaced(Tables(view), [0, 1], 3)
    ensures next.plan == Plan(4, 2, [2, 3]) && FitsView(next, after)
  {
    FourIsFree(view, after, job);
    next := Job(Plan(4, 2, [2, 3]), MergedOf(Tables(after), [2, 3]));
  }

  lemma FourIsFree(view: View, after: View, job: Job)
    requires job.plan == Plan(3, 1, [0, 1]) && FitsView(job, view) && 2 in Tables(view)
    requires forall v: nat :: Data(v) in view ==> v < 3
    requires RecordsOk(after) && Tables(after) == Replaced(Tables(view), [0, 1], 3)
    ensures 2 in Tables(after) && 3 in Tables(after) && Data(4) !in after
  {
    TablesOf(view);
    TablesOf(after);
    assert 4 !in Tables(after);
  }

  // ------------------------------------------------------------------
  // 3. A target whose name was not confirmed
  // ------------------------------------------------------------------

  /** One entry in version 0, an empty version 1, and a merge that stops at the target's barrier: reopening may
      lose the entry. */
  lemma ReopenedTooEarly() returns (job: Job)
    ensures var entries: Table := map[7 := Entry(1, [])];
            var d, f := Shelf([entries, map[]]), FateWith(false, true);
            && WellFormed(d) && Safe(AnySubset, d, Goal(entries, 2)) && Quiet(AnySubset, d, job.plan.target) && FitsView(job, ViewOf(d))
            && job.plan.sources == [0, 1] && OutcomeOf(job, f) == Latched(RecoveryRequired)
            && (var left := Exec(d, MergeTrace(job, f));
                RecoveryTrace(ViewOf(left)).Some? && !SafeAlong(AnySubset, left, RecoveryTrace(ViewOf(left)).value, Goal(entries, 2)))
  {
    var entries: Table := map[7 := Entry(1, [])];
    var tables, f, g := [entries, map[]], FateWith(false, true), Goal(entries, 2);
    OneEntryPartition(entries);
    ShelfIsSafe(AnySubset, tables, g);
    job := ShelfFits(tables, [0, 1], 1);
    ShelfShows(tables);
    MergedOfHolds(Shelved(tables), [0, 1], entries);
    assert Holds(Shelved(tables), 0, 7) && 0 in [0, 1];
    ReopeningNeedsADurableTarget(Shelf(tables), job, f, g);
  }

  lemma OneEntryPartition(entries: Table)
    ensures Partition(Shelved([entries, map[]]), entries)
  {
    var ts := Shelved([entries, map[]]);
    forall k | k in entries ensures exists v :: Holds(ts, v, k) { assert Holds(ts, 0, k); }
  }

  // ------------------------------------------------------------------
  // 4. A compaction that leaves the active version alone
  // ------------------------------------------------------------------

  function Coin(): Entry { Entry(1, []) }

  /** Three versions of one class, the first two with one entry each and the last with two. */
  ghost predicate IsRow(row: map<nat, Table>) {
    (forall v :: v in row <==> v in [0, 1, 2]) && |row[0]| == 1 && |row[1]| == 1 && |row[2]| == 2
  }

  /** Such a row, and what it is when the first two have become version 3. */
  lemma SomeRow() returns (row: map<nat, Table>, now: map<nat, Table>)
    ensures IsRow(row) && Merges(row, now, [0, 1], 3, 2) && forall v :: v in now <==> v in [2, 3]
    ensures row[2] == map[12 := Coin(), 13 := Coin()]
  {
    var a: Table, b: Table, c: Table := map[10 := Coin()], map[11 := Coin()], map[12 := Coin(), 13 := Coin()];
    assert |a| == 1 && |b| == 1 && |c| == 2;
    row, now := map[0 := a, 1 := b, 2 := c], map[2 := c, 3 := a + b];
    TwoMerge(row, a, b, now);
  }

  lemma TwoMerge(row: map<nat, Table>, a: Table, b: Table, now: map<nat, Table>)
    requires (forall v :: v in row <==> v in [0, 1, 2]) && row[0] == a && row[1] == b && a.Keys !! b.Keys
    requires now == map[2 := row[2], 3 := a + b]
    ensures Merges(row, now, [0, 1], 3, 2)
  {
    var both: seq<nat> := [0, 1];
    assert TablesAt(row, both) == [a, b];
    assert both[..1] == [0] && both[..1][..0] == [];
    assert MergedOf(row, both[..1]) == a;
    assert MergedOf(row, both) == a + b;
  }

  /** An instance that has them open: what is active is not on stable storage yet. */
  function Holder(row: map<nat, Table>): State {
    State(FilesOf(0, row), [[0, 1, 2]], [2], [0], 4, {}, {File(0, 0), File(0, 1)}, None, false)
  }

  lemma HolderIsShaped(row: map<nat, Table>)
    requires forall v :: v in row <==> v in [0, 1, 2]
    ensures Shaped(Holder(row)) && Registered(Holder(row)) && ActiveOf(Holder(row), 0) == File(0, 2)
  {
    var s := Holder(row);
    forall f ensures f in s.files <==> f.cls < 1 && f.version in [0, 1, 2] {
      if f.cls < 1 && f.version in [0, 1, 2] { assert f == File(0, f.version); }
    }
    forall f | f in s.files && f !in s.durable ensures IsActive(s, f) {
      assert f == File(0, 2);
    }
  }

  lemma Opened(row: map<nat, Table>) returns (s: State)
    requires IsRow(row)
    ensures Shaped(s) && Registered(s) && |s.catalogs| == 1 && AreThree(s.catalogs[0], 0, 1, 2) && s.highest[0] == 2
    ensures s.integrity.None? && s.dirty == {} && ActiveOf(s, 0) == File(0, 2) && File(0, 2) !in s.durable
    ensures ClassTables(s, 0) == row && AreThree(SizesIn(s, 0), 1, 1, 2)
    ensures forall v :: v in row ==> File(0, v) in s.files && s.files[File(0, v)] == row[v]
  {
    s := Holder(row);
    HolderIsShaped(row);
  }

  predicate AreThree(xs: seq<nat>, a: nat, b: nat, c: nat) {
    |xs| == 3 && xs[0] == a && xs[1] == b && xs[2] == c
  }

  lemma RowCuts(xs: seq<nat>, cuts: seq<nat>)
    requires AreThree(xs, 1, 1, 2) && AreThree(cuts, 0, 2, 3)
    ensures Longest(xs, 2, cuts) && Cuts(xs, 2, cuts) && Greedy.Fits(xs, 4, 0, 2) && Greedy.Fits(xs, 4, 0, 3)
  {
    assert Total(xs, 0) == 0 && Total(xs, 1) == 1 && Total(xs, 2) == 2 && Total(xs, 3) == 4;
  }

  /** The first two of three versions merged, and the last left alone. */
  lemma TwoThenOne(before: map<nat, Table>, after: map<nat, Table>, versions: seq<nat>, t: nat, top: nat, limit: nat) returns (a: Account)
    requires |versions| == 3 && Ascending(versions) && (forall v :: v in versions ==> v <= top)
    requires (forall v :: v in before <==> v in versions) && Merges(before, after, versions[0..2], t, top)
    requires Greedy.Fits(Sizes(before, versions), limit, 0, 2)
    ensures Accounts(a, after, versions, 2, limit) && a.before == before && a.top == top && AreThree(a.cuts, 0, 2, 3)
  {
    a := Account(before, [0], [], top);
    AccountAtFirst(before, versions, top, limit);
    MergesConserve(before, after, versions[0..2], t, top);
    AccountMerged(a, before, after, versions, 3, limit, 2, t, top);
    a := a.(cuts := a.cuts + [2], made := a.made + [t]);
    AccountSingle(a, after, versions, 2, limit);
    a := a.(cuts := a.cuts + [3], made := a.made + [versions[2]]);
  }

  /** What can be told before the call, from the sizes. */
  lemma ForgetsWhen(s: State, c: nat, limit: nat, cuts: seq<nat>)
    requires Shaped(s) && c < |s.catalogs| && |s.catalogs[c]| > 0
    requires Cuts(SizesIn(s, c), limit, cuts) && Longest(SizesIn(s, c), limit, cuts) && cuts[0] == 0
    requires SomeLonger(cuts) && ActiveOf(s, c) !in s.durable && ActiveOf(s, c) !in s.dirty
    ensures WouldForget(s, c, limit) <==> LastAlone(cuts)
  {
    LongestRunsAreGreedy(SizesIn(s, c), limit, cuts);
  }

  /** The two forgotten below: the active version is not durable and not owed before, and not registered after. */
  ghost predicate Lapses(s: State, s2: State, a: Account, now: map<nat, Table>, limit: nat) {
    && Compacted(s, s2, 0, a, now, limit) && |s.catalogs[0]| > 0 && Registered(s) && !Registered(s2)
    && AreThree(SizesIn(s, 0), 1, 1, 2) && AreThree(a.cuts, 0, 2, 3)
  }

  /** Sizes 1, 1, 2 and a limit of 2: the sizes say so before the call. */
  lemma ForgottenVersion() returns (s: State, s2: State, a: Account, now: map<nat, Table>)
    ensures Lapses(s, s2, a, now, 2) && Longest(SizesIn(s, 0), 2, a.cuts) && WouldForget(s, 0, 2)
  {
    s, s2, a, now := FirstTwo(2);
    RowCuts(SizesIn(s, 0), a.cuts);
    assert LongerAt(a.cuts, 0);
    ForgetsWhen(s, 0, 2, a.cuts);
  }

  /** The same sizes and a limit of 4, with the attempt at all three refused by the check for free space: it
      succeeds, and forgets the version although the longest run that fits would have taken it in. */
  lemma ForgottenForWantOfSpace() returns (s: State, s2: State, a: Account, now: map<nat, Table>)
    ensures Lapses(s, s2, a, now, 4) && Reached(a) == |s.catalogs[0]| && !WouldForget(s, 0, 4)
  {
    s, s2, a, now := FirstTwo(4);
    RowCuts(SizesIn(s, 0), a.cuts);
    AllInOne(s);
  }

  /** The longest run takes in everything. */
  lemma AllInOne(s: State)
    requires Shaped(s) && |s.catalogs| > 0 && |SizesIn(s, 0)| == 3 && Greedy.Fits(SizesIn(s, 0), 4, 0, 3)
    ensures |s.catalogs[0]| > 0 && !WouldForget(s, 0, 4)
  {
    var cuts: seq<nat> := [0, 3];
    LongestRunsAreGreedy(SizesIn(s, 0), 4, cuts);
    assert !LastAlone(cuts);
  }

  lemma FirstTwo(limit: nat) returns (s: State, s2: State, a: Account, now: map<nat, Table>)
    requires limit >= 2
    ensures Lapses(s, s2, a, now, limit) && |s.catalogs[0]| == 3 && ActiveOf(s, 0) !in s.durable && ActiveOf(s, 0) !in s.dirty
  {
    var row;
    row, now := SomeRow();
    s := Opened(row);
    var after: seq<nat> := [2, 3];
    a, s2 := FirstTwoLapse(s, now, s.catalogs[0], after, limit);
  }

  lemma FirstTwoLapse(s: State, now: map<nat, Table>, versions: seq<nat>, after: seq<nat>, limit: nat) returns (a: Account, s2: State)
    requires Shaped(s) && Registered(s) && |s.catalogs| == 1 && s.catalogs[0] == versions && AreThree(versions, 0, 1, 2) && s.highest[0] == 2
    requires Merges(ClassTables(s, 0), now, [0, 1], 3, 2) && AreThree(SizesIn(s, 0), 1, 1, 2) && limit >= 2
    requires |after| == 2 && after[0] == 2 && after[1] == 3 && (forall v :: v in now <==> v in after)
    requires s.dirty == {} && File(0, 2) !in s.durable
    ensures Lapses(s, s2, a, now, limit)
  {
    a, s2 := FirstTwoMerged(s, now, versions, after, limit);
    Forgotten(s, s2, a, now, limit);
  }

  lemma FirstTwoMerged(s: State, now: map<nat, Table>, versions: seq<nat>, after: seq<nat>, limit: nat) returns (a: Account, s2: State)
    requires Shaped(s) && |s.catalogs| == 1 && s.catalogs[0] == versions && AreThree(versions, 0, 1, 2) && s.highest[0] == 2
    requires Merges(ClassTables(s, 0), now, [0, 1], 3, 2) && AreThree(SizesIn(s, 0), 1, 1, 2) && limit >= 2
    requires |after| == 2 && after[0] == 2 && after[1] == 3 && (forall v :: v in now <==> v in after)
    requires s.dirty == {} && File(0, 2) !in s.durable
    ensures AreThree(a.cuts, 0, 2, 3) && Compacted(s, s2, 0, a, now, limit)
  {
    assert CatalogOk(versions, 2) && versions[0..2] == [0, 1];
    forall v ensures v in ClassTables(s, 0) <==> v in versions { assert v in versions ==> File(0, v) in s.files; }
    SizesAgree(s, 0);
    assert Total(SizesIn(s, 0), 0) == 0 && Total(SizesIn(s, 0), 1) == 1 && Total(SizesIn(s, 0), 2) == 2;
    a := TwoThenOne(ClassTables(s, 0), now, versions, 3, 2, limit);
    s2 := CompactedTo(s, a, now, versions, after, limit);
  }

  lemma PairInOrder(after: seq<nat>, now: map<nat, Table>)
    requires |after| == 2 && after[0] == 2 && after[1] == 3 && (forall v :: v in now <==> v in after)
    ensures ClassInOrder(after, now, 3, {}, {3})
  {
    assert 3 in after;
  }

  lemma PairRegisters(s: State, versions: seq<nat>, after: seq<nat>)
    requires AreThree(versions, 0, 1, 2) && |after| == 2 && after[0] == 2 && after[1] == 3
    requires s.dirty == {} && File(0, 2) !in s.durable
    ensures Registers(versions, after, OwedOf(s, 0), {}, 2)
    ensures forall v :: v in after ==> (v in {3} <==> v !in versions || File(0, v) in s.durable)
  {
    assert 2 in versions && 3 !in versions;
  }

  lemma CompactedTo(s: State, a: Account, now: map<nat, Table>, versions: seq<nat>, after: seq<nat>, limit: nat) returns (s2: State)
    requires Shaped(s) && |s.catalogs| == 1 && s.catalogs[0] == versions && AreThree(versions, 0, 1, 2)
    requires s.highest[0] == 2 == a.top && s.dirty == {} && File(0, 2) !in s.durable
    requires |after| == 2 && after[0] == 2 && after[1] == 3 && (forall v :: v in now <==> v in after)
    requires a.before == ClassTables(s, 0) && Accounts(a, now, versions, 2, limit)
    ensures Compacted(s, s2, 0, a, now, limit)
  {
    s2 := WithClass(s, 0, after, now, 3, {}, {3}, false);
    PairInOrder(after, now);
    PairRegisters(s, versions, after);
    GroupsAreCompacted(s, 0, a, now, after, 3, {}, {3}, false, limit);
  }

  lemma Forgotten(s: State, s2: State, a: Account, now: map<nat, Table>, limit: nat)
    requires Compacted(s, s2, 0, a, now, limit) && Registered(s) && AreThree(a.cuts, 0, 2, 3) && |s.catalogs[0]| == 3
    requires ActiveOf(s, 0) !in s.durable && ActiveOf(s, 0) !in s.dirty
    ensures !Registered(s2)
  {
    assert LongerAt(a.cuts, 0);
    CompactionForgets(s, s2, 0, a, now, limit);
  }

  // ------------------------------------------------------------------
  // 5. An exception between the only erasure and its note
  // ------------------------------------------------------------------

  /** An older version that was on stable storage, its one key erased, and then an exception. */
  lemma UnnotedErasure() returns (s: State, f: File)
    ensures Shaped(s) && Registered(s) && f in s.files && |s.files[f]| == 1
    ensures var s2 := Deletion.Erased(s, f, map[], 1, false); Shaped(s2) && !Registered(s2)
  {
    var row, now := SomeRow();
    s := Opened(row);
    f := File(0, 0);
    assert 0 in row;
    Deletion.ErasedIsRegistered(s, f, map[], 1, true);
  }

  // ------------------------------------------------------------------
  // 6. A failed insertion that swapped an entry unseen
  // ------------------------------------------------------------------

  /** The first failure leaves another map of the same size and shape, the second keeps the guarantee. */
  function Unlucky(after: Table): InsertLuck { InsertLuck(false, false, Damages(after, false), false, Throws) }

  lemma DamageGoesUnseen(s: State, c: nat, key: Key, entry: Entry, after: Table)
    requires Shaped(s) && c < |s.catalogs| && s.integrity.None? && ActiveOf(s, c) in s.files
    requires Missed(s.files[ActiveOf(s, c)], Damages(after, false), key)
    ensures var (s2, r) := Inserted(s, c, key, entry, Unlucky(after));
            r == Err(InsufficientSpace) && s2.integrity.None? && !SameEntries(s.files, s2.files)
  {
    var (s2, r) := Inserted(s, c, key, entry, Unlucky(after));
    var n := InsertMeans(s, c, key, entry, Unlucky(after), s2, r);
    ChangesAreSeen(s, c, key, entry, Unlucky(after));
  }

  lemma OtherMap(t: Table) returns (after: Table)
    requires |t| == 2 && t == map[12 := Coin(), 13 := Coin()]
    ensures Missed(t, Damages(after, false), 20)
  {
    after := map[12 := Coin(), 14 := Coin()];
    assert 13 in t && 13 !in after && |after| == 2;
  }

  /** The answer is that there is no room, nothing is latched, and an entry that was stored is not there. */
  lemma UnseenDamage() returns (s: State, after: Table)
    ensures Shaped(s) && |s.catalogs| == 1 && s.integrity.None?
    ensures var (s2, r) := Inserted(s, 0, 20, Coin(), Unlucky(after));
            r == Err(InsufficientSpace) && s2.integrity.None? && !SameEntries(s.files, s2.files)
  {
    var row, now := SomeRow();
    s := Opened(row);
    assert 2 in row;
    after := OtherMap(row[2]);
    DamageGoesUnseen(s, 0, 20, Coin(), after);
  }

  // ------------------------------------------------------------------
  // 7. A merge that an exception leaves after publication
  // ------------------------------------------------------------------

  predicate AreTwo(xs: seq<nat>, a: nat, b: nat) { |xs| == 2 && xs[0] == a && xs[1] == b }

  /** Two empty versions. */
  ghost predicate IsPair(s: State) {
    && Shaped(s) && |s.catalogs| == 1 && AreTwo(s.catalogs[0], 0, 1) && s.highest[0] == 1 && Usable(s) && s.count == 0
    && forall f :: f in s.files ==> s.files[f] == map[]
  }

  lemma Pair() returns (s: State)
    ensures IsPair(s)
  {
    s := State(map[File(0, 0) := map[], File(0, 1) := map[]], [[0, 1]], [1], [0], 0, {}, {}, None, false);
    forall f ensures f in s.files <==> f.cls < |s.catalogs| && f.version in s.catalogs[f.cls] {
      if f.cls < 1 && f.version in [0, 1] { assert f == File(0, f.version); }
    }
  }

  lemma PairContains(s: State, capacities: seq<nat>)
    requires IsPair(s)
    ensures Contains(s.files, map[], capacities)
  {
  }

  lemma PairMirrorsClass(s: State, view: View)
    requires IsPair(s) && NoRecord(view) && (forall v: nat :: Data(v) in view <==> v < 2)
    requires forall v: nat :: Data(v) in view ==> view[Data(v)].Rows? && view[Data(v)].table == map[]
    ensures MirrorsClass(view, s, 0)
  {
    TablesAreListed(s, 0);
    TablesOf(view);
    forall v ensures v in Tables(view) <==> v in ClassTables(s, 0) {
      assert v in s.catalogs[0] <==> v == 0 || v == 1;
    }
  }

  lemma PairIsOpen(s: State, r: Run, capacities: seq<nat>)
    requires IsPair(s) && |capacities| == 1 && |r.views| == 1 && r.open == Some(s) && MirrorsClass(r.views[0], s, 0)
    ensures Inv(capacities, r, map[]) && Working(r)
  {
    PairContains(s, capacities);
    OnlyClassMirrors(r.views, s);
    MirroredInv(capacities, r.views, s, map[]);
    MirrorsSeal(r.views, s);
    assert r == Run(r.views, Some(s));
  }

  lemma OnlyClassMirrors(views: seq<View>, s: State)
    requires |views| == |s.catalogs| == 1 && MirrorsClass(views[0], s, 0)
    ensures Mirrors(views, s)
  {
    forall c | 0 <= c < |views| ensures MirrorsClass(views[c], s, c) { assert c == 0; }
  }

  lemma PairOnShelf() returns (s: State, r: Run, job: Job)
    ensures IsPair(s) && r.open == Some(s) && |r.views| == 1 && MirrorsClass(r.views[0], s, 0)
    ensures AreTwo(job.plan.sources, 0, 1) && job.plan.target == 2 && FitsView(job, r.views[0]) && job.merged == map[]
    ensures forall v: nat :: Data(v) in r.views[0] ==> v < 2
  {
    s := Pair();
    var tables := Empties(2);
    ShelfShows(tables);
    job := ShelfFits(tables, [0, 1], 1);
    r := Run([ViewOf(Shelf(tables))], Some(s));
    TablesOf(r.views[0]);
    NothingMerged(Tables(r.views[0]), job.plan.sources);
    PairMirrorsClass(s, r.views[0]);
  }

  /** The merge of both with reading the target's marker running out of memory. */
  lemma ThrownBeforeMarker(capacities: seq<nat>, s: State, r: Run, job: Job, f: Fate) returns (k: nat, r2: Run)
    requires IsPair(s) && Working(r) && r.open == Some(s) && |r.views| == 1 && FitsView(job, r.views[0])
    requires job.plan.target == 2 && Catalogued(f)
    ensures r2.open == Some(s) && |r2.views| == 1 && r2.views[0] == ViewExec(r.views[0], Prelude(job, f))
    ensures Happens(capacities, r, map[], MergeThrows(0, job, f, k), r2, map[])
  {
    k := |Prelude(job, f)|;
    ConfirmedTrace(job, f);
    CutInFirst(Prelude(job, f), RetireSources(job, f), k);
    assert Prelude(job, f)[..k] == Prelude(job, f);
    r2 := Run(r.views[0 := CutView(r.views[0], job, f, k)], Some(s));
    assert AfterThrow(s, s, 0, job, f, k);
  }

  /** The record named, the target published, and nothing else changed. */
  ghost predicate LeftUnderway(view: View, plan: Plan, s: State) {
    && RecordsOk(view) && Record(plan.target) in view && view[Record(plan.target)] == Sidecar(plan)
    && Data(plan.target) in view && view[Data(plan.target)].Rows? && view[Data(plan.target)].table == map[]
    && ServesClass(view, s, 0) && forall v: nat :: Data(v) in view ==> v < 3
  }

  lemma PairUnderway(capacities: seq<nat>, s: State, r: Run, job: Job, f: Fate, k: nat, r2: Run)
    requires IsPair(s) && |capacities| == 1 && Inv(capacities, r, map[]) && |r.views| == 1 && FitsView(job, r.views[0]) && NoRecord(r.views[0])
    requires Happens(capacities, r, map[], MergeThrows(0, job, f, k), r2, map[]) && Catalogued(f)
    requires r2.open == Some(s) && |r2.views| == 1 && r2.views[0] == ViewExec(r.views[0], Prelude(job, f))
    requires job.plan.target == 2 && job.merged == map[] && forall v: nat :: Data(v) in r.views[0] ==> v < 2
    ensures LeftUnderway(r2.views[0], job.plan, s)
  {
    StepKeepsInv(capacities, r, map[], MergeThrows(0, job, f, k), r2, map[]);
    assert Represents(r2.views[0], Slice(map[], capacities, 0)) && ServesClass(r2.views[0], s, 0);
    RecordAfterPrelude(r.views[0], job, f);
    PreludeSees(r.views[0], job, f);
  }

  /** An insertion for which the allocator does nothing but work. */
  function Smoothly(): InsertLuck { InsertLuck(false, false, Works, false, Works) }

  /** An entry inserted then is answered `true`, is in the file, and is gone after the next opening. */
  lemma LostInsertion(capacities: seq<nat>) returns (s: State, r: Run, job: Job, k: nat, r2: Run, written: View)
    requires |capacities| == 1
    ensures IsPair(s) && Inv(capacities, r, map[]) && r2.open == Some(s) && |r2.views| == 1
    ensures Happens(capacities, r, map[], MergeThrows(0, job, FateWith(true, true), k), r2, map[])
    ensures Serving(r2) && !Sealed(r2)
    ensures var (s2, answer) := Inserted(s, 0, 7, Coin(), Smoothly());
            && answer == Ok(true) && Stores(s2.files, File(0, 1), 7) && ServesClass(written, s2, 0)
            && written == r2.views[0][Data(1) := Rows(map[7 := Coin()], None)]
    ensures RecoveryTrace(written).Some?
    ensures forall v :: v in Tables(ViewExec(written, RecoveryTrace(written).value)) ==>
              7 !in Tables(ViewExec(written, RecoveryTrace(written).value))[v]
  {
    s, r, job, k, r2 := ThrownPair(capacities);
    written := WriteToPair(s, r2.views[0], job.plan);
    LeftIsStranded(r2, job, s);
  }

  lemma LeftIsStranded(r2: Run, job: Job, s: State)
    requires IsPair(s) && r2.open == Some(s) && |r2.views| == 1 && LeftUnderway(r2.views[0], job.plan, s)
    ensures Serving(r2) && !Sealed(r2)
  {
    assert !NoRecord(r2.views[0]);
  }

  lemma ThrownPair(capacities: seq<nat>) returns (s: State, r: Run, job: Job, k: nat, r2: Run)
    requires |capacities| == 1
    ensures IsPair(s) && Inv(capacities, r, map[]) && r2.open == Some(s) && |r2.views| == 1
    ensures Happens(capacities, r, map[], MergeThrows(0, job, FateWith(true, true), k), r2, map[])
    ensures LeftUnderway(r2.views[0], job.plan, s) && job.plan.target == 2 && AreTwo(job.plan.sources, 0, 1)
  {
    s, r, job := PairOnShelf();
    PairIsOpen(s, r, capacities);
    k, r2 := ThrownBeforeMarker(capacities, s, r, job, FateWith(true, true));
    PairUnderway(capacities, s, r, job, FateWith(true, true), k, r2);
  }

  lemma {:induction false} NothingMerged(ts: map<nat, Table>, sources: seq<nat>)
    requires (forall v :: v in sources ==> v in ts) && forall v :: v in ts ==> ts[v] == map[]
    ensures MergedOf(ts, sources) == map[]
    decreases |sources|
  {
    if sources != [] {
      var init := sources[..|sources| - 1];
      assert forall v :: v in init ==> v in sources;
      assert sources[|sources| - 1] in sources;
      NothingMerged(ts, init);
    }
  }

  lemma WriteToPair(s: State, view: View, plan: Plan) returns (written: View)
    requires IsPair(s) && LeftUnderway(view, plan, s) && plan.target == 2 && AreTwo(plan.sources, 0, 1)
    ensures !NoRecord(view)
    ensures var (s2, answer) := Inserted(s, 0, 7, Coin(), Smoothly());
            && answer == Ok(true) && Stores(s2.files, File(0, 1), 7) && ServesClass(written, s2, 0)
            && written == view[Data(1) := Rows(map[7 := Coin()], None)]
    ensures RecoveryTrace(written).Some?
    ensures forall v :: v in Tables(ViewExec(written, RecoveryTrace(written).value)) ==>
              7 !in Tables(ViewExec(written, RecoveryTrace(written).value))[v]
  {
    var entries: Table := map[7 := Coin()];
    written := view[Data(1) := Rows(entries, None)];
    PairInserts(s);
    WrittenServes(s, view, Inserted(s, 0, 7, Coin(), Smoothly()).0, Rows(entries, None));
    assert 0 in plan.sources && 1 in plan.sources;
    PairShown(s, view);
    OnlyTheTarget(view, plan, Rows(entries, None));
  }

  lemma PairShown(s: State, view: View)
    requires IsPair(s) && ServesClass(view, s, 0)
    ensures Data(1) in view
  {
    TablesAreListed(s, 0);
    assert 1 in s.catalogs[0] && 1 in ClassTables(s, 0);
  }

  lemma PairInserts(s: State)
    requires IsPair(s)
    ensures var (s2, answer) := Inserted(s, 0, 7, Coin(), Smoothly());
            && answer == Ok(true) && s2.files == s.files[File(0, 1) := map[7 := Coin()]] && s2.catalogs == s.catalogs
  {
    assert ActiveOf(s, 0) == File(0, 1);
    ActiveIsThere(s, 0);
  }

  lemma WrittenServes(s: State, view: View, s2: State, content: Content)
    requires IsPair(s) && ServesClass(view, s, 0) && content.Rows?
    requires s2.catalogs == s.catalogs && s2.files == s.files[File(0, 1) := content.table]
    ensures ServesClass(view[Data(1) := content], s2, 0)
  {
    forall v | v in ClassTables(s2, 0) ensures ShowsAs(view[Data(1) := content], v, ClassTables(s2, 0)[v]) {
      if v != 1 { assert v in ClassTables(s, 0) && ClassTables(s, 0)[v] == ClassTables(s2, 0)[v]; }
    }
  }

  lemma OnlyTheTarget(view: View, plan: Plan, content: Content)
    requires RecordsOk(view) && Record(plan.target) in view && view[Record(plan.target)] == Sidecar(plan)
    requires |plan.sources| <= MAX_SOURCES && Data(plan.target) in view && Data(1) in view && content.Rows?
    requires plan.target == 2 && 0 in plan.sources && 1 in plan.sources
    requires (forall v: nat :: Data(v) in view ==> v < 3) && view[Data(2)].Rows? && view[Data(2)].table == map[]
    ensures var written := view[Data(1) := content];
            && RecoveryTrace(written).Some?
            && forall v :: v in Tables(ViewExec(written, RecoveryTrace(written).value)) ==>
                 Tables(ViewExec(written, RecoveryTrace(written).value))[v] == map[]
  {
    var after := Reopened(view, plan, 1, content);
    OnlyTwo(view, plan, after);
  }

  lemma OnlyTwo(view: View, plan: Plan, after: map<nat, Table>)
    requires 0 in plan.sources && 1 in plan.sources && (forall v: nat :: Data(v) in view ==> v < 3)
    requires Data(2) in view && view[Data(2)].Rows? && view[Data(2)].table == map[]
    requires forall w :: w in after ==> w !in plan.sources && Data(w) in view && view[Data(w)].Rows? && after[w] == view[Data(w)].table
    ensures forall v :: v in after ==> after[v] == map[]
  {
    forall v | v in after ensures after[v] == map[] { assert v == 2; }
  }

  /** What a file was made to hold, reopened. */
  lemma Reopened(view: View, plan: Plan, v: nat, content: Content) returns (after: map<nat, Table>)
    requires RecordsOk(view) && Record(plan.target) in view && view[Record(plan.target)] == Sidecar(plan)
    requires |plan.sources| <= MAX_SOURCES && Data(plan.target) in view && Data(v) in view && v != plan.target && content.Rows?
    requires v in plan.sources
    ensures var written := view[Data(v) := content];
            RecoveryTrace(written).Some? && after == Tables(ViewExec(written, RecoveryTrace(written).value))
    ensures forall w :: w in after ==> w !in plan.sources && Data(w) in view && view[Data(w)].Rows? && after[w] == view[Data(w)].table
  {
    var written := view[Data(v) := content];
    WrittenThenReopened(view, plan, v, content);
    after := Tables(ViewExec(written, RecoveryTrace(written).value));
    TablesOf(written);
  }
}
