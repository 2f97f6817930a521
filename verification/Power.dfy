/**
  Whole runs on disks that can lose power: what a process does is done to disks, and at any moment
  a power cut may take the changes no barrier has confirmed.
*/
module Power {
  import opened Basics
  import opened Disk
  import opened Recovery
  import opened CrashSafety
  import opened Merge
  import opened MergeEffect
  import opened Settling
  import opened CrashRuns
  import opened Limits
  import opened Chain
  import opened Batch
  import opened StoreState
  import opened Insertion
  import opened Deletion
  import opened Retry
  import opened Resolution
  import opened Runs
  import opened Thrown

  /** A run together with the disk below each class. `settled`: no contents and no new file have been
      written since the last `sync` that reached everything. */
  datatype Machine = Machine(run: Run, disks: seq<Disk>, settled: bool)

  datatype Move =
    | Does(event: Event)     // what a process does, or that it dies
    | Syncs(whole: bool)     // `sync`; `whole` when it succeeded with a complete register
    | LosesPower

  /** The process sees what is on its disks. */
  ghost predicate Shows(x: Machine) {
    |x.disks| == |x.run.views| && forall c :: 0 <= c < |x.disks| ==> WellFormed(x.disks[c]) && ViewOf(x.disks[c]) == x.run.views[c]
  }

  function NextOf(r: Run, c: nat): nat {
    if r.open.Some? && c < |r.open.value.highest| then r.open.value.highest[c] + 1 else 0
  }

  /** One class is safe to lose power in, and may be merged in when the instance works. */
  ghost predicate GuardedClass(model: CrashModel, g: Goal, r: Run, d: Disk, c: nat) {
    Safe(model, d, g) && (Working(r) ==> Calm(model, d, NextOf(r, c)))
  }

  ghost predicate Guarded(model: CrashModel, widest: nat, capacities: seq<nat>, x: Machine, m: Table) {
    forall c :: 0 <= c < |x.disks| ==> GuardedClass(model, Goal(Slice(m, capacities, c), widest), x.run, x.disks[c], c)
  }

  /** What every reachable state of a machine keeps. */
  ghost predicate Keeps(model: CrashModel, widest: nat, capacities: seq<nat>, x: Machine, m: Table) {
    && Inv(capacities, x.run, m) && Shows(x)
    && (x.settled ==> Guarded(model, widest, capacities, x, m))
  }

  /** Contents flushed and nothing else. */
  ghost predicate Raised(d: Disk, e: Disk) {
    e.durable == d.durable && e.pending == d.pending && Grows(d.inodes, e.inodes) && |e.inodes| == |d.inodes|
  }

  // ------------------------------------------------------------------
  // Steps
  // ------------------------------------------------------------------

  ghost predicate CutAll(model: CrashModel, before: seq<Disk>, after: seq<Disk>) {
    |after| == |before| && forall c :: 0 <= c < |before| ==> PowerCut(model, before[c], after[c])
  }

  /** What an event does to the disks, and whether they are settled after it. Insertions and deletions
      write files in place and may make new ones: no power cut is considered until they are flushed. */
  ghost predicate OnDisks(model: CrashModel, widest: nat, x: Machine, e: Event, y: Machine) {
    match e
    case Insert(_, _, _) => y.settled == (x.settled && y.run == x.run && y.disks == x.disks) && WritesAll(x, y)
    case Delete(_) => y.settled == (x.settled && y.run == x.run && y.disks == x.disks) && WritesAll(x, y)
    case Flush => false
    case MergeOne(c, job, f) =>
      && c < |x.disks| && WellFormed(x.disks[c]) && |job.plan.sources| <= widest
      && y.disks == x.disks[c := Exec(x.disks[c], MergeTrace(job, f))]
      && y.settled == (x.settled && (OutcomeOf(job, f).Merged? ==> model == InOrder || f.finalBarrier))
    case MergeThrows(c, job, f, k) =>
      && c < |x.disks| && WellFormed(x.disks[c]) && |job.plan.sources| <= widest && k <= |MergeTrace(job, f)|
      && y.disks == x.disks[c := Exec(x.disks[c], MergeTrace(job, f)[..k])]
      && y.settled == (x.settled && (NoRecord(ViewOf(y.disks[c])) ==> ThrownAtRest(model, job, f, k)))
    case LoseActive => y.disks == x.disks && y.settled == x.settled
    case Die => y.disks == x.disks && y.settled == x.settled
    case DieInMerge(c, job, f, k) =>
      && c < |x.disks| && WellFormed(x.disks[c]) && |job.plan.sources| <= widest && k <= |MergeTrace(job, f)|
      && y.disks == x.disks[c := Exec(x.disks[c], MergeTrace(job, f)[..k])] && y.settled == x.settled
    case RecoverPart(c, k) =>
      && c < |x.disks| && WellFormed(x.disks[c]) && RecoveryTrace(ViewOf(x.disks[c])).Some? && k <= |RecoveryTrace(ViewOf(x.disks[c])).value|
      && y.disks == x.disks[c := Exec(x.disks[c], RecoveryTrace(ViewOf(x.disks[c])).value[..k])]
      && y.settled == (x.settled && Steady(model, x.disks[c]))
    case Open =>
      && |y.disks| == |x.disks| && y.run.open.Some?
      && (forall c :: 0 <= c < |x.disks| ==> OpensOn(x.disks[c], y.disks[c]))
      && y.settled == (x.settled && forall c :: 0 <= c < |x.disks| ==> OpensSettled(model, x.disks[c], NextOf(y.run, c)))
  }

  /** Nothing named yet, or everything over and confirmed: the next merge may start. */
  predicate ThrownAtRest(model: CrashModel, job: Job, f: Fate, k: nat)
    requires k <= |MergeTrace(job, f)|
  {
    || (forall i :: 0 <= i < k ==> Harmless(MergeTrace(job, f)[i]))
    || (k == |MergeTrace(job, f)| && OutcomeOf(job, f).Merged? && (model == InOrder || f.finalBarrier))
  }

  /** Files are written in place, but none that is taken for durable afterwards, and new ones get new names. */
  ghost predicate Writes(d: Disk, e: Disk, s: State, s2: State, c: nat) {
    && e.durable == d.durable && |d.inodes| <= |e.inodes| && d.pending <= e.pending
    && (forall i :: |d.pending| <= i < |e.pending| ==> MakesNew(e.pending[i], s, c))
    && (forall v: nat :: File(c, v) in s2.durable && Data(v) in Visible(d) && Visible(d)[Data(v)] < |d.inodes| ==>
          e.inodes[Visible(d)[Data(v)]] == d.inodes[Visible(d)[Data(v)]])
  }

  predicate MakesNew(op: Op, s: State, c: nat) {
    op.Put? && op.name.Data? && File(c, op.name.version) !in s.files
  }

  ghost predicate WritesAll(x: Machine, y: Machine) {
    x.run.open.Some? && y.run.open.Some? && |y.disks| == |x.disks| ==>
      forall c :: 0 <= c < |x.disks| ==> Writes(x.disks[c], y.disks[c], x.run.open.value, y.run.open.value, c)
  }

  /** Recovery runs to its end; a class left without a version gets a file that is still owed a sync. */
  ghost predicate OpensOn(d: Disk, e: Disk) {
    WellFormed(d) && RecoveryTrace(ViewOf(d)).Some? && (HasVersions(d) ==> e == Exec(d, RecoveryTrace(ViewOf(d)).value))
  }

  /** Recovery leaves the class with a version to open. */
  ghost predicate HasVersions(d: Disk) {
    RecoveryTrace(ViewOf(d)).Some? && DataVersions(ViewExec(ViewOf(d), RecoveryTrace(ViewOf(d)).value)) != {}
  }

  ghost predicate OpensSettled(model: CrashModel, d: Disk, next: nat) {
    HasVersions(d) && Ready(model, d, next)
  }

  ghost predicate Moves(model: CrashModel, widest: nat, capacities: seq<nat>, x: Machine, m: Table, step: Move, y: Machine, m2: Table) {
    Shows(y) && match step
    case Does(e) =>
      Happens(capacities, x.run, m, e, y.run, m2) && OnDisks(model, widest, x, e, y)
    case Syncs(whole) =>
      && Happens(capacities, x.run, m, Flush, y.run, m2) && |y.disks| == |x.disks| && (Serving(x.run) || y.run == x.run)
      && (Serving(x.run) && y.run.open.Some? ==> x.run.open.value.durable <= y.run.open.value.durable)
      && (if whole then
            && Serving(x.run) && y.run.open.Some? && y.run.open.value.durable == y.run.open.value.files.Keys
            && (forall c :: 0 <= c < |x.disks| ==> y.disks[c] == CutTo(x.disks[c], Visible(x.disks[c])))
            && y.settled == (x.settled || Working(x.run))
          else
            (forall c :: 0 <= c < |x.disks| ==> Raised(x.disks[c], y.disks[c])) && y.settled == x.settled)
    case LosesPower =>
      x.settled && m2 == m && y.settled && y.run.open.None? && CutAll(model, x.disks, y.disks)
  }

  // ------------------------------------------------------------------
  // Every step keeps it
  // ------------------------------------------------------------------

  lemma RunFollows(model: CrashModel, widest: nat, capacities: seq<nat>, x: Machine, m: Table, e: Event, y: Machine, m2: Table)
    requires Inv(capacities, x.run, m) && Happens(capacities, x.run, m, e, y.run, m2) && Shows(y)
    requires y.settled ==> Guarded(model, widest, capacities, y, m2)
    ensures Keeps(model, widest, capacities, y, m2)
  {
    StepKeepsInv(capacities, x.run, m, e, y.run, m2);
  }

  /** One merge, of a class that was guarded. */
  lemma MergeGuards(model: CrashModel, g: Goal, r: Run, r2: Run, d: Disk, c: nat, job: Job, f: Fate)
    requires GuardedClass(model, g, r, d, c) && Working(r) && c < |r.open.value.highest|
    requires FitsView(job, ViewOf(d)) && job.plan.target == NextOf(r, c) && |job.plan.sources| <= g.widest
    requires OutcomeOf(job, f).Merged? ==> model == InOrder || f.finalBarrier
    requires Working(r2) ==> !OutcomeOf(job, f).Latched? && NextOf(r2, c) == NextOf(r, c) + if OutcomeOf(job, f).Merged? then 1 else 0
    ensures GuardedClass(model, g, r2, Exec(d, MergeTrace(job, f)), c)
  {
    var trace := MergeTrace(job, f);
    MergeCutGuards(model, g, r, d, c, job, f, |trace|);
    assert trace[..|trace|] == trace;
    if Working(r2) { CalmAfterMerge(model, d, job, f, g); }
  }

  lemma MergeCutGuards(model: CrashModel, g: Goal, r: Run, d: Disk, c: nat, job: Job, f: Fate, k: nat)
    requires GuardedClass(model, g, r, d, c) && Working(r) && k <= |MergeTrace(job, f)|
    requires FitsView(job, ViewOf(d)) && job.plan.target == NextOf(r, c) && |job.plan.sources| <= g.widest
    ensures Safe(model, Exec(d, MergeTrace(job, f)[..k]), g)
  {
    CalmIsQuiet(model, d, job.plan.target);
    MergeIsSafe(model, d, job, f, g);
    SafeAtEveryCut(model, d, MergeTrace(job, f), g, k);
  }

  lemma RecoveryCutGuards(model: CrashModel, g: Goal, d: Disk, k: nat)
    requires Safe(model, d, g) && Steady(model, d)
    requires RecoveryTrace(ViewOf(d)).Some? && k <= |RecoveryTrace(ViewOf(d)).value|
    ensures Safe(model, Exec(d, RecoveryTrace(ViewOf(d)).value[..k]), g)
  {
    RecoveryIsSafe(model, d, g);
    SafeAtEveryCut(model, d, RecoveryTrace(ViewOf(d)).value, g, k);
  }

  /** An opened class, once its recovery has run on a directory that was ready for it. */
  lemma OpenGuards(model: CrashModel, g: Goal, r2: Run, d: Disk, e: Disk, c: nat)
    requires Safe(model, d, g) && OpensOn(d, e) && OpensSettled(model, d, NextOf(r2, c))
    requires LeavesBelow(ViewOf(d), NextOf(r2, c))
    ensures GuardedClass(model, g, r2, e, c)
  {
    CalmAfterRecovery(model, d, NextOf(r2, c), g);
  }

  /** A successful sync: everything seen is durable, and nothing else survives. */
  lemma SyncGuards(model: CrashModel, g: Goal, r2: Run, d: Disk, c: nat)
    requires WellFormed(d) && Represents(ViewOf(d), g.entries) && LooksCalm(ViewOf(d), NextOf(r2, c))
    ensures GuardedClass(model, g, r2, CutTo(d, Visible(d)), c)
  {
    var e := CutTo(d, Visible(d));
    VisibleInRange(d);
    VisibleIsPossible(model, d.durable, d.pending);
    CutToIsACut(model, d, Visible(d));
    assert Visible(e) == e.durable && ViewOf(e) == ViewIn(e.inodes, e.durable);
    forall dir | Possible(model, e, dir) ensures Sound(e.inodes, dir, g) {
      assert dir == e.durable;
    }
    CalmWhenOne(model, e, NextOf(r2, c));
  }

  lemma RaisedGuards(model: CrashModel, g: Goal, r: Run, r2: Run, d: Disk, e: Disk, c: nat)
    requires GuardedClass(model, g, r, d, c) && Raised(d, e)
    requires Working(r2) ==> Working(r) && NextOf(r2, c) == NextOf(r, c)
    ensures GuardedClass(model, g, r2, e, c)
  {
    assert e == d.(inodes := e.inodes);
    SafeGrows(model, d, e.inodes, g);
    if Working(r2) {
      forall dir | Live(model, e, dir) ensures CalmDir(dir, NextOf(r2, c)) { assert Live(model, d, dir); }
    }
  }

  lemma CutGuards(model: CrashModel, g: Goal, r2: Run, d: Disk, e: Disk, c: nat)
    requires Safe(model, d, g) && PowerCut(model, d, e) && r2.open.None?
    ensures GuardedClass(model, g, r2, e, c) && Represents(ViewOf(e), g.entries)
  {
    CrashKeepsSafe(model, d, e, g);
    SafeIsCoherent(model, e, g);
  }

  /** What is left of every class after a power cut still means its part of the map. */
  lemma PowerCutKeeps(model: CrashModel, widest: nat, capacities: seq<nat>, x: Machine, m: Table, y: Machine)
    requires Keeps(model, widest, capacities, x, m) && x.settled && Shows(y) && y.run.open.None?
    requires CutAll(model, x.disks, y.disks)
    ensures Keeps(model, widest, capacities, y, m)
  {
    forall c | 0 <= c < |y.disks|
      ensures GuardedClass(model, Goal(Slice(m, capacities, c), widest), y.run, y.disks[c], c)
           && Represents(y.run.views[c], Slice(m, capacities, c))
    {
      assert GuardedClass(model, Goal(Slice(m, capacities, c), widest), x.run, x.disks[c], c);
      CutGuards(model, Goal(Slice(m, capacities, c), widest), y.run, x.disks[c], y.disks[c], c);
    }
  }

  /** A class nothing was done to stays as guarded as it was. */
  lemma OtherGuards(model: CrashModel, g: Goal, r: Run, r2: Run, d: Disk, c: nat)
    requires GuardedClass(model, g, r, d, c)
    requires Working(r2) ==> Working(r) && NextOf(r2, c) == NextOf(r, c)
    ensures GuardedClass(model, g, r2, d, c)
  {
  }

  lemma MergeNext(s: State, s2: State, c: nat, job: Job, f: Fate, d: nat)
    requires AfterMerge(s, s2, c, job, f) && job.plan.target == s.highest[c] + 1 && d < |s.highest|
    ensures Usable(s2) ==> Usable(s) && !OutcomeOf(job, f).Latched?
    ensures |s2.highest| == |s.highest| && (d != c ==> s2.highest[d] == s.highest[d])
    ensures Usable(s2) ==> s2.highest[c] == s.highest[c] + if OutcomeOf(job, f).Merged? then 1 else 0
  {
    if Usable(s2) { CataloguedWhenMerged(job, f); }
  }

  lemma MergeKeepsGuarded(model: CrashModel, widest: nat, capacities: seq<nat>, x: Machine, m: Table, c: nat, job: Job, f: Fate, y: Machine)
    requires Keeps(model, widest, capacities, x, m) && x.settled && y.settled
    requires Happens(capacities, x.run, m, MergeOne(c, job, f), y.run, m)
    requires OnDisks(model, widest, x, MergeOne(c, job, f), y)
    ensures Guarded(model, widest, capacities, y, m)
  {
    forall d | 0 <= d < |y.disks|
      ensures GuardedClass(model, Goal(Slice(m, capacities, d), widest), y.run, y.disks[d], d)
    {
      var g := Goal(Slice(m, capacities, d), widest);
      assert GuardedClass(model, g, x.run, x.disks[d], d);
      if d == c {
        MergedClassGuards(model, g, x.run, y.run, x.disks[c], c, job, f);
      } else {
        UnmergedClassGuards(model, g, x.run, y.run, x.disks[d], c, job, f, d);
      }
    }
  }

  lemma MergedClassGuards(model: CrashModel, g: Goal, r: Run, r2: Run, disk: Disk, c: nat, job: Job, f: Fate)
    requires GuardedClass(model, g, r, disk, c) && MayMerge(r, c, job) && ViewOf(disk) == r.views[c]
    requires r2.open.Some? && AfterMerge(r.open.value, r2.open.value, c, job, f) && |job.plan.sources| <= g.widest
    requires OutcomeOf(job, f).Merged? ==> model == InOrder || f.finalBarrier
    ensures GuardedClass(model, g, r2, Exec(disk, MergeTrace(job, f)), c)
  {
    MergeNext(r.open.value, r2.open.value, c, job, f, c);
    MergeGuards(model, g, r, r2, disk, c, job, f);
  }

  lemma UnmergedClassGuards(model: CrashModel, g: Goal, r: Run, r2: Run, disk: Disk, c: nat, job: Job, f: Fate, d: nat)
    requires GuardedClass(model, g, r, disk, d) && MayMerge(r, c, job) && d != c && d < |r.open.value.highest|
    requires r2.open.Some? && AfterMerge(r.open.value, r2.open.value, c, job, f)
    ensures GuardedClass(model, g, r2, disk, d)
  {
    MergeNext(r.open.value, r2.open.value, c, job, f, d);
    OtherGuards(model, g, r, r2, disk, d);
  }

  lemma CataloguedWhenMerged(job: Job, f: Fate)
    requires !OutcomeOf(job, f).Latched?
    ensures OutcomeOf(job, f).Merged? <==> f.build == Built && Catalogued(f)
  {
  }

  lemma ThrowNext(s: State, s2: State, c: nat, job: Job, f: Fate, k: nat, d: nat)
    requires AfterThrow(s, s2, c, job, f, k) && job.plan.target == s.highest[c] + 1 && d < |s.highest|
    ensures |s2.highest| == |s.highest| && (d != c ==> s2.highest[d] == s.highest[d])
    ensures !Told(job, f, k) ==> s2.highest == s.highest
    ensures !Untold(job, f, k) ==> s2.highest[c] == job.plan.target
  {
  }

  lemma HarmlessIsUntold(job: Job, f: Fate, k: nat)
    requires k <= |MergeTrace(job, f)| && forall i :: 0 <= i < k ==> Harmless(MergeTrace(job, f)[i])
    ensures !Told(job, f, k)
  {
    if NamesRecord(f) { NamingIsNotHarmless(job, f); }
  }

  lemma NamingIsNotHarmless(job: Job, f: Fate)
    requires NamesRecord(f)
    ensures |MergeTrace(job, f)| > 5 && !Harmless(MergeTrace(job, f)[5])
  {
    TraceOfNaming(job, f);
    assert NamingTrace(job)[5].Rename? && MergeTrace(job, f)[5] == NamingTrace(job)[5];
  }

  lemma MergedIsTold(job: Job, f: Fate)
    requires OutcomeOf(job, f).Merged?
    ensures !Untold(job, f, |MergeTrace(job, f)|)
  {
    ConfirmedTrace(job, f);
  }

  /** A merge that an exception left: safe to lose power in; and the next one may start if it is at rest. */
  lemma ThrownClassGuards(model: CrashModel, g: Goal, r: Run, r2: Run, disk: Disk, c: nat, job: Job, f: Fate, k: nat)
    requires GuardedClass(model, g, r, disk, c) && MayMerge(r, c, job) && ViewOf(disk) == r.views[c] && k <= |MergeTrace(job, f)|
    requires r2.open.Some? && AfterThrow(r.open.value, r2.open.value, c, job, f, k) && |job.plan.sources| <= g.widest
    requires Working(r2) ==> ThrownAtRest(model, job, f, k)
    ensures GuardedClass(model, g, r2, Exec(disk, MergeTrace(job, f)[..k]), c)
  {
    MergeCutGuards(model, g, r, disk, c, job, f, k);
    if Working(r2) {
      ThrowNext(r.open.value, r2.open.value, c, job, f, k, c);
      ThrownStaysCalm(model, g, disk, job, f, k, NextOf(r2, c));
    }
  }

  lemma ThrownStaysCalm(model: CrashModel, g: Goal, disk: Disk, job: Job, f: Fate, k: nat, next: nat)
    requires Safe(model, disk, g) && Calm(model, disk, job.plan.target) && FitsView(job, ViewOf(disk)) && |job.plan.sources| <= g.widest
    requires k <= |MergeTrace(job, f)| && ThrownAtRest(model, job, f, k)
    requires !Told(job, f, k) ==> next == job.plan.target
    requires !Untold(job, f, k) ==> next == job.plan.target + 1
    ensures Calm(model, Exec(disk, MergeTrace(job, f)[..k]), next)
  {
    if forall i :: 0 <= i < k ==> Harmless(MergeTrace(job, f)[i]) {
      HarmlessIsUntold(job, f, k);
      CalmAlongHarmless(model, disk, MergeTrace(job, f)[..k], job.plan.target, g);
    } else {
      OverStaysCalm(model, g, disk, job, f, next);
      assert MergeTrace(job, f)[..k] == MergeTrace(job, f);
    }
  }

  lemma OverStaysCalm(model: CrashModel, g: Goal, disk: Disk, job: Job, f: Fate, next: nat)
    requires Safe(model, disk, g) && Calm(model, disk, job.plan.target) && FitsView(job, ViewOf(disk)) && |job.plan.sources| <= g.widest
    requires OutcomeOf(job, f).Merged? && (model == InOrder || f.finalBarrier)
    requires !Untold(job, f, |MergeTrace(job, f)|) ==> next == job.plan.target + 1
    ensures Calm(model, Exec(disk, MergeTrace(job, f)), next)
  {
    MergedIsTold(job, f);
    CalmAfterMerge(model, disk, job, f, g);
  }

  lemma UnthrownClassGuards(model: CrashModel, g: Goal, r: Run, r2: Run, disk: Disk, c: nat, job: Job, f: Fate, k: nat, d: nat)
    requires GuardedClass(model, g, r, disk, d) && MayMerge(r, c, job) && d != c && d < |r.open.value.highest|
    requires r2.open.Some? && AfterThrow(r.open.value, r2.open.value, c, job, f, k)
    ensures GuardedClass(model, g, r2, disk, d)
  {
    ThrowNext(r.open.value, r2.open.value, c, job, f, k, d);
    OtherGuards(model, g, r, r2, disk, d);
  }

  lemma AtRestWhenWorking(model: CrashModel, widest: nat, x: Machine, c: nat, job: Job, f: Fate, k: nat, y: Machine)
    requires OnDisks(model, widest, x, MergeThrows(c, job, f, k), y) && Shows(y) && y.settled
    ensures Working(y.run) ==> ThrownAtRest(model, job, f, k)
  {
    assert ViewOf(y.disks[c]) == y.run.views[c];
  }

  lemma ThrowKeepsGuarded(model: CrashModel, widest: nat, capacities: seq<nat>, x: Machine, m: Table, c: nat, job: Job, f: Fate, k: nat, y: Machine)
    requires Keeps(model, widest, capacities, x, m) && x.settled && y.settled && Shows(y)
    requires Happens(capacities, x.run, m, MergeThrows(c, job, f, k), y.run, m)
    requires OnDisks(model, widest, x, MergeThrows(c, job, f, k), y)
    ensures Guarded(model, widest, capacities, y, m)
  {
    forall d | 0 <= d < |y.disks|
      ensures GuardedClass(model, Goal(Slice(m, capacities, d), widest), y.run, y.disks[d], d)
    {
      var g := Goal(Slice(m, capacities, d), widest);
      assert GuardedClass(model, g, x.run, x.disks[d], d);
      if d == c {
        AtRestWhenWorking(model, widest, x, c, job, f, k, y);
        ThrownClassGuards(model, g, x.run, y.run, x.disks[c], c, job, f, k);
      } else {
        UnthrownClassGuards(model, g, x.run, y.run, x.disks[d], c, job, f, k, d);
      }
    }
  }

  lemma CutMergeKeepsGuarded(model: CrashModel, widest: nat, capacities: seq<nat>, x: Machine, m: Table, c: nat, job: Job, f: Fate, k: nat, y: Machine)
    requires Keeps(model, widest, capacities, x, m) && x.settled
    requires Happens(capacities, x.run, m, DieInMerge(c, job, f, k), y.run, m)
    requires OnDisks(model, widest, x, DieInMerge(c, job, f, k), y)
    ensures Guarded(model, widest, capacities, y, m)
  {
    forall d | 0 <= d < |y.disks|
      ensures GuardedClass(model, Goal(Slice(m, capacities, d), widest), y.run, y.disks[d], d)
    {
      var g := Goal(Slice(m, capacities, d), widest);
      assert GuardedClass(model, g, x.run, x.disks[d], d);
      if d == c {
        assert ViewOf(x.disks[c]) == x.run.views[c];
        MergeCutGuards(model, g, x.run, x.disks[c], c, job, f, k);
      }
    }
  }

  lemma RecoverPartKeepsGuarded(model: CrashModel, widest: nat, capacities: seq<nat>, x: Machine, m: Table, c: nat, k: nat, y: Machine)
    requires Keeps(model, widest, capacities, x, m) && x.settled && y.settled
    requires Happens(capacities, x.run, m, RecoverPart(c, k), y.run, m)
    requires OnDisks(model, widest, x, RecoverPart(c, k), y)
    ensures Guarded(model, widest, capacities, y, m)
  {
    forall d | 0 <= d < |y.disks|
      ensures GuardedClass(model, Goal(Slice(m, capacities, d), widest), y.run, y.disks[d], d)
    {
      var g := Goal(Slice(m, capacities, d), widest);
      assert GuardedClass(model, g, x.run, x.disks[d], d);
      if d == c { RecoveryCutGuards(model, g, x.disks[c], k); }
    }
  }

  /** What an opened instance catalogues is below the next identity it would issue. */
  lemma OpenLeavesBelow(x: Machine, y: Machine, c: nat)
    requires Shows(x) && x.run.open.None? && Opening(x.run, y.run) && c < |x.disks|
    requires HasVersions(x.disks[c])
    ensures LeavesBelow(ViewOf(x.disks[c]), NextOf(y.run, c))
  {
    var s := y.run.open.value;
    var after := ViewExec(ViewOf(x.disks[c]), RecoveryTrace(ViewOf(x.disks[c])).value);
    assert ViewOf(x.disks[c]) == x.run.views[c] && y.run.views[c] == after;
    assert CatalogOk(s.catalogs[c], s.highest[c]);
    forall v: nat | Data(v) in after ensures v < NextOf(y.run, c) {
      assert v in DataVersions(after);
      assert v in s.catalogs[c];
    }
  }

  lemma OpenKeepsGuarded(model: CrashModel, widest: nat, capacities: seq<nat>, x: Machine, m: Table, y: Machine)
    requires Keeps(model, widest, capacities, x, m) && x.settled && y.settled
    requires Happens(capacities, x.run, m, Open, y.run, m) && OnDisks(model, widest, x, Open, y)
    ensures Guarded(model, widest, capacities, y, m)
  {
    forall d | 0 <= d < |y.disks|
      ensures GuardedClass(model, Goal(Slice(m, capacities, d), widest), y.run, y.disks[d], d)
    {
      var g := Goal(Slice(m, capacities, d), widest);
      assert GuardedClass(model, g, x.run, x.disks[d], d);
      OpenLeavesBelow(x, y, d);
      OpenGuards(model, g, y.run, x.disks[d], y.disks[d], d);
    }
  }

  /** The three ways a merge can end. */
  lemma MergingKeepsGuarded(model: CrashModel, widest: nat, capacities: seq<nat>, x: Machine, m: Table, e: Event, y: Machine)
    requires Keeps(model, widest, capacities, x, m) && x.settled && y.settled && Shows(y)
    requires e.MergeOne? || e.MergeThrows? || e.DieInMerge?
    requires Happens(capacities, x.run, m, e, y.run, m) && OnDisks(model, widest, x, e, y)
    ensures Guarded(model, widest, capacities, y, m)
  {
    match e
    case MergeOne(c, job, f) => MergeKeepsGuarded(model, widest, capacities, x, m, c, job, f, y);
    case MergeThrows(c, job, f, k) => ThrowKeepsGuarded(model, widest, capacities, x, m, c, job, f, k, y);
    case DieInMerge(c, job, f, k) => CutMergeKeepsGuarded(model, widest, capacities, x, m, c, job, f, k, y);
  }

  lemma EventKeeps(model: CrashModel, widest: nat, capacities: seq<nat>, x: Machine, m: Table, e: Event, y: Machine, m2: Table)
    requires Keeps(model, widest, capacities, x, m) && Shows(y)
    requires Happens(capacities, x.run, m, e, y.run, m2) && OnDisks(model, widest, x, e, y)
    ensures Keeps(model, widest, capacities, y, m2)
  {
    if y.settled {
      if e.Insert? || e.Delete? {
        SameGuarded(model, widest, capacities, x, m, e, y, m2);
      } else {
        OtherKeepsGuarded(model, widest, capacities, x, m, e, y, m2);
      }
    }
    RunFollows(model, widest, capacities, x, m, e, y, m2);
  }

  lemma OtherKeepsGuarded(model: CrashModel, widest: nat, capacities: seq<nat>, x: Machine, m: Table, e: Event, y: Machine, m2: Table)
    requires Keeps(model, widest, capacities, x, m) && y.settled && Shows(y) && !e.Insert? && !e.Delete?
    requires Happens(capacities, x.run, m, e, y.run, m2) && OnDisks(model, widest, x, e, y)
    ensures Guarded(model, widest, capacities, y, m2)
  {
    match e
    case RecoverPart(c, k) => RecoverPartKeepsGuarded(model, widest, capacities, x, m, c, k, y);
    case Flush =>
    case Open => OpenKeepsGuarded(model, widest, capacities, x, m, y);
    case LoseActive => FewerGuarded(model, widest, capacities, x, m, y);
    case Die => FewerGuarded(model, widest, capacities, x, m, y);
    case _ => MergingKeepsGuarded(model, widest, capacities, x, m, e, y);
  }

  /** The disks as they were, and an instance that no longer works, or is gone. */
  lemma FewerGuarded(model: CrashModel, widest: nat, capacities: seq<nat>, x: Machine, m: Table, y: Machine)
    requires Guarded(model, widest, capacities, x, m) && y.disks == x.disks && !Working(y.run)
    ensures Guarded(model, widest, capacities, y, m)
  {
    forall d | 0 <= d < |y.disks|
      ensures GuardedClass(model, Goal(Slice(m, capacities, d), widest), y.run, y.disks[d], d)
    {
      assert GuardedClass(model, Goal(Slice(m, capacities, d), widest), x.run, x.disks[d], d);
    }
  }

  lemma SameMap(files: Files, m: Table, m2: Table, capacities: seq<nat>)
    requires Contains(files, m, capacities) && Contains(files, m2, capacities)
    ensures m2 == m
  {
    forall k ensures k in m <==> k in m2 {
      if k in m { var f :| Stores(files, f, k); }
      if k in m2 { var f :| Stores(files, f, k); }
    }
    forall k | k in m ensures m2[k] == m[k] { var f :| Stores(files, f, k); }
  }

  /** A call that changed nothing at all kept the map: the two maps are what one instance contains. */
  lemma SameGuarded(model: CrashModel, widest: nat, capacities: seq<nat>, x: Machine, m: Table, e: Event, y: Machine, m2: Table)
    requires Keeps(model, widest, capacities, x, m) && x.settled && y.run == x.run && y.disks == x.disks
    requires (e.Insert? || e.Delete?) && Happens(capacities, x.run, m, e, y.run, m2)
    ensures Guarded(model, widest, capacities, y, m2)
  {
    if Working(x.run) {
      StepKeepsInv(capacities, x.run, m, e, y.run, m2);
      SameMap(x.run.open.value.files, m, m2, capacities);
    }
  }

  // ------------------------------------------------------------------
  // Syncs, and the whole
  // ------------------------------------------------------------------

  lemma SyncedLooksCalm(capacities: seq<nat>, r: Run, m: Table, r2: Run, c: nat)
    requires Inv(capacities, r, m) && Working(r) && c < |r.views| && Happens(capacities, r, m, Flush, r2, m)
    ensures LooksCalm(r.views[c], NextOf(r2, c))
  {
    var s := r.open.value;
    assert MirrorsClass(r.views[c], s, c) && CatalogOk(s.catalogs[c], s.highest[c]);
    TablesOf(r.views[c]);
    forall v: nat | Data(v) in r.views[c] ensures v < NextOf(r2, c) {
      assert v in Tables(r.views[c]);
      assert v in s.catalogs[c];
    }
  }

  /** A sync above a merge in flight confirms what is there, the record among it. */
  lemma SyncStaysSafe(model: CrashModel, g: Goal, r2: Run, d: Disk, c: nat)
    requires Safe(model, d, g) && !Working(r2)
    ensures GuardedClass(model, g, r2, CutTo(d, Visible(d)), c)
  {
    VisibleIsPossible(model, d.durable, d.pending);
    CutToIsACut(model, d, Visible(d));
    CrashKeepsSafe(model, d, CutTo(d, Visible(d)), g);
  }

  lemma WholeSyncGuards(model: CrashModel, widest: nat, capacities: seq<nat>, x: Machine, m: Table, y: Machine, c: nat)
    requires Keeps(model, widest, capacities, x, m) && Happens(capacities, x.run, m, Flush, y.run, m) && Serving(x.run)
    requires c < |x.disks| && (Working(x.run) || x.settled)
    ensures GuardedClass(model, Goal(Slice(m, capacities, c), widest), y.run, CutTo(x.disks[c], Visible(x.disks[c])), c)
  {
    var g := Goal(Slice(m, capacities, c), widest);
    assert ViewOf(x.disks[c]) == x.run.views[c];
    if Working(x.run) {
      SyncedLooksCalm(capacities, x.run, m, y.run, c);
      SyncGuards(model, g, y.run, x.disks[c], c);
    } else {
      assert GuardedClass(model, g, x.run, x.disks[c], c);
      SyncStaysSafe(model, g, y.run, x.disks[c], c);
    }
  }

  lemma SyncKeeps(model: CrashModel, widest: nat, capacities: seq<nat>, x: Machine, m: Table, whole: bool, y: Machine, m2: Table)
    requires Keeps(model, widest, capacities, x, m) && Moves(model, widest, capacities, x, m, Syncs(whole), y, m2)
    ensures Keeps(model, widest, capacities, y, m2)
  {
    if y.settled {
      forall c | 0 <= c < |y.disks|
        ensures GuardedClass(model, Goal(Slice(m, capacities, c), widest), y.run, y.disks[c], c)
      {
        if whole {
          WholeSyncGuards(model, widest, capacities, x, m, y, c);
        } else {
          PartSyncGuards(model, widest, capacities, x, m, y, c);
        }
      }
    }
    RunFollows(model, widest, capacities, x, m, Flush, y, m2);
  }

  lemma PartSyncGuards(model: CrashModel, widest: nat, capacities: seq<nat>, x: Machine, m: Table, y: Machine, c: nat)
    requires Keeps(model, widest, capacities, x, m) && Happens(capacities, x.run, m, Flush, y.run, m)
    requires x.settled && c < |x.disks| == |y.disks| && Raised(x.disks[c], y.disks[c])
    ensures GuardedClass(model, Goal(Slice(m, capacities, c), widest), y.run, y.disks[c], c)
  {
    var g := Goal(Slice(m, capacities, c), widest);
    assert GuardedClass(model, g, x.run, x.disks[c], c);
    RaisedGuards(model, g, x.run, y.run, x.disks[c], y.disks[c], c);
  }

  /** Every step of a machine keeps the invariant, the loss of power among them. */
  lemma MoveKeeps(model: CrashModel, widest: nat, capacities: seq<nat>, x: Machine, m: Table, step: Move, y: Machine, m2: Table)
    requires Keeps(model, widest, capacities, x, m) && Moves(model, widest, capacities, x, m, step, y, m2)
    ensures Keeps(model, widest, capacities, y, m2)
  {
    match step
    case Does(e) => EventKeeps(model, widest, capacities, x, m, e, y, m2);
    case Syncs(whole) => SyncKeeps(model, widest, capacities, x, m, whole, y, m2);
    case LosesPower => PowerCutKeeps(model, widest, capacities, x, m, y);
  }

  ghost predicate IsRun(model: CrashModel, widest: nat, capacities: seq<nat>, xs: seq<Machine>, ms: seq<Table>, steps: seq<Move>) {
    && |xs| == |ms| == |steps| + 1
    && forall i :: 0 <= i < |steps| ==> Moves(model, widest, capacities, xs[i], ms[i], steps[i], xs[i + 1], ms[i + 1])
  }

  /** Whatever happens, in whatever order and however often, under either crash model: the directory of every
      class means its part of the one map, what an open instance has catalogued is that map, and while nothing
      unflushed was written every class may lose power. */
  lemma {:induction false} RunsKeep(model: CrashModel, widest: nat, capacities: seq<nat>, xs: seq<Machine>, ms: seq<Table>, steps: seq<Move>, n: nat)
    requires IsRun(model, widest, capacities, xs, ms, steps) && n <= |steps|
    requires Keeps(model, widest, capacities, xs[0], ms[0])
    ensures Keeps(model, widest, capacities, xs[n], ms[n])
  {
    if n > 0 {
      RunsKeep(model, widest, capacities, xs, ms, steps, n - 1);
      assert Moves(model, widest, capacities, xs[n - 1], ms[n - 1], steps[n - 1], xs[n - 1 + 1], ms[n - 1 + 1]);
      MoveKeeps(model, widest, capacities, xs[n - 1], ms[n - 1], steps[n - 1], xs[n], ms[n]);
    }
  }

  /** So after any run, power cuts included, an open instance answers as the one map would: `find`, then `resolve`
      for what `find` does not have; and no key is in two of its files. */
  lemma RunsServeOneMap(model: CrashModel, widest: nat, capacities: seq<nat>, xs: seq<Machine>, ms: seq<Table>, steps: seq<Move>,
                        n: nat, k: Key, found: Option<Entry>, height: nat, resolved: Resolved)
    requires IsRun(model, widest, capacities, xs, ms, steps) && n <= |steps|
    requires Keeps(model, widest, capacities, xs[0], ms[0]) && xs[n].run.open.Some?
    requires FindAnswers(xs[n].run.open.value, k, found) && Exact(xs[n].run.open.value, [Request(k, height)], resolved)
    ensures found.Some? ==> k in ms[n] && ms[n][k] == found.value
    ensures found.None? ==> (k in ms[n] <==> k in resolved.found) && (k in ms[n] ==> resolved.found[k] == ms[n][k])
    ensures found.None? ==> (k !in ms[n] <==> Names(resolved.absent, k))
    ensures AtMostOnce(xs[n].run.open.value.files) && xs[n].run.open.value.count == |ms[n]|
  {
    RunsKeep(model, widest, capacities, xs, ms, steps, n);
    FindThenResolve(capacities, xs[n].run, ms[n], k, found, height, resolved);
  }

  /** The step leaves a merge with its record named and the process running. */
  ghost predicate StepStrands(x: Machine, step: Move) { step.Does? && Strands(x.run, step.event) }

  lemma MoveSeals(model: CrashModel, widest: nat, capacities: seq<nat>, x: Machine, m: Table, step: Move, y: Machine, m2: Table)
    requires Keeps(model, widest, capacities, x, m) && Moves(model, widest, capacities, x, m, step, y, m2) && Sealed(x.run)
    ensures Sealed(y.run) <==> !StepStrands(x, step)
  {
    match step
    case Does(e) => SealedUnlessThrown(capacities, x.run, m, e, y.run, m2);
    case Syncs(_) => SealedUnlessThrown(capacities, x.run, m, Flush, y.run, m2);
    case LosesPower =>
  }

  /** As long as no exception leaves a merge with its record named, no instance serves above a merge in flight. */
  lemma {:induction false} RunsStaySealed(model: CrashModel, widest: nat, capacities: seq<nat>, xs: seq<Machine>, ms: seq<Table>, steps: seq<Move>, n: nat)
    requires IsRun(model, widest, capacities, xs, ms, steps) && n <= |steps|
    requires Keeps(model, widest, capacities, xs[0], ms[0]) && Sealed(xs[0].run)
    requires forall i :: 0 <= i < n ==> !StepStrands(xs[i], steps[i])
    ensures Sealed(xs[n].run)
  {
    if n > 0 {
      RunsStaySealed(model, widest, capacities, xs, ms, steps, n - 1);
      RunsKeep(model, widest, capacities, xs, ms, steps, n - 1);
      assert Moves(model, widest, capacities, xs[n - 1], ms[n - 1], steps[n - 1], xs[n - 1 + 1], ms[n - 1 + 1]);
      MoveSeals(model, widest, capacities, xs[n - 1], ms[n - 1], steps[n - 1], xs[n], ms[n]);
    }
  }

  /** A new store: an empty directory with nothing pending. */
  lemma FreshKeeps(model: CrashModel, widest: nat, capacities: seq<nat>)
    ensures var x := Machine(Run(seq(|capacities|, _ => map[]), None), seq(|capacities|, _ => Disk([], map[], [])), true);
            Keeps(model, widest, capacities, x, map[])
  {
    var x := Machine(Run(seq(|capacities|, _ => map[]), None), seq(|capacities|, _ => Disk([], map[], [])), true);
    FreshInv(capacities);
    forall c | 0 <= c < |x.disks|
      ensures WellFormed(x.disks[c]) && ViewOf(x.disks[c]) == map[]
      ensures GuardedClass(model, Goal(Slice(map[], capacities, c), widest), x.run, x.disks[c], c)
    {
      assert Slice(map[], capacities, c) == map[];
      EmptyIsSafe(model, widest);
    }
  }

  lemma EmptyIsSafe(model: CrashModel, widest: nat)
    ensures WellFormed(Disk([], map[], [])) && ViewOf(Disk([], map[], [])) == map[]
    ensures Safe(model, Disk([], map[], []), Goal(map[], widest))
  {
    var d := Disk([], map[], []);
    EmptyMeansNothing();
    assert ViewOf(d) == map[];
    forall dir | Possible(model, d, dir) ensures Sound(d.inodes, dir, Goal(map[], widest)) {
      assert dir == map[] && ViewIn(d.inodes, dir) == map[];
    }
  }

  // ------------------------------------------------------------------
  // What a power cut in a run comes to
  // ------------------------------------------------------------------

  /** After a power cut the first opening, if every class has a version, leaves the machine settled: merges
      may run and power may be lost again at once. */
  lemma SettledAgain(model: CrashModel, widest: nat, capacities: seq<nat>, x: Machine, m: Table, cut: Machine, y: Machine)
    requires Keeps(model, widest, capacities, x, m)
    requires Moves(model, widest, capacities, x, m, LosesPower, cut, m)
    requires Moves(model, widest, capacities, cut, m, Does(Open), y, m)
    requires forall c :: 0 <= c < |cut.disks| ==> HasVersions(cut.disks[c])
    ensures y.settled && Keeps(model, widest, capacities, y, m) && Working(y.run)
    ensures forall c :: 0 <= c < |y.disks| ==> Calm(model, y.disks[c], NextOf(y.run, c))
  {
    CutLeaves(model, widest, capacities, x, m, cut);
    OpenAgain(model, widest, capacities, cut, m, y);
    WorkingIsCalm(model, widest, capacities, y, m);
  }

  lemma CutLeaves(model: CrashModel, widest: nat, capacities: seq<nat>, x: Machine, m: Table, cut: Machine)
    requires Keeps(model, widest, capacities, x, m) && Moves(model, widest, capacities, x, m, LosesPower, cut, m)
    ensures Keeps(model, widest, capacities, cut, m) && cut.settled && cut.run.open.None?
    ensures forall c :: 0 <= c < |cut.disks| ==> cut.disks[c].pending == []
  {
    PowerCutKeeps(model, widest, capacities, x, m, cut);
  }

  lemma OpenAgain(model: CrashModel, widest: nat, capacities: seq<nat>, cut: Machine, m: Table, y: Machine)
    requires Keeps(model, widest, capacities, cut, m) && cut.settled && cut.run.open.None?
    requires Moves(model, widest, capacities, cut, m, Does(Open), y, m)
    requires forall c :: 0 <= c < |cut.disks| ==> HasVersions(cut.disks[c]) && cut.disks[c].pending == []
    ensures y.settled && Keeps(model, widest, capacities, y, m) && Working(y.run)
  {
    OpenSeals(capacities, cut.run, m, y.run);
    OpensSettledAfterCut(model, widest, capacities, cut, m, y);
    EventKeeps(model, widest, capacities, cut, m, Open, y, m);
  }

  lemma WorkingIsCalm(model: CrashModel, widest: nat, capacities: seq<nat>, y: Machine, m: Table)
    requires Guarded(model, widest, capacities, y, m) && Working(y.run)
    ensures forall c :: 0 <= c < |y.disks| ==> Calm(model, y.disks[c], NextOf(y.run, c))
  {
    forall c | 0 <= c < |y.disks| ensures Calm(model, y.disks[c], NextOf(y.run, c)) {
      assert GuardedClass(model, Goal(Slice(m, capacities, c), widest), y.run, y.disks[c], c);
    }
  }

  lemma OpensSettledAfterCut(model: CrashModel, widest: nat, capacities: seq<nat>, cut: Machine, m: Table, y: Machine)
    requires Keeps(model, widest, capacities, cut, m) && cut.settled && cut.run.open.None? && Opening(cut.run, y.run)
    requires forall c :: 0 <= c < |cut.disks| ==> HasVersions(cut.disks[c]) && (model == InOrder || cut.disks[c].pending == [])
    ensures forall c :: 0 <= c < |cut.disks| ==> OpensSettled(model, cut.disks[c], NextOf(y.run, c))
  {
    forall c | 0 <= c < |cut.disks| ensures OpensSettled(model, cut.disks[c], NextOf(y.run, c)) {
      var g := Goal(Slice(m, capacities, c), widest);
      assert GuardedClass(model, g, cut.run, cut.disks[c], c);
      SafeIsCoherent(model, cut.disks[c], g);
      OpenLeavesBelow(cut, y, c);
      ReadyWhenOne(model, cut.disks[c], NextOf(y.run, c));
    }
  }
}
