/**
  What a power cut cannot take, however much has been written since, and whether the process lives or not: the
  versions whose contents and whose names a complete `sync` or a merge confirmed, and that nothing has written to
  or retired.
*/
module Flushed {
  import opened Basics
  import opened Disk
  import opened Recovery
  import opened CrashSafety
  import opened Merge
  import opened MergeEffect
  import opened Settling
  import opened Limits
  import opened Chain
  import opened Untouched
  import opened Thrown
  import opened StoreState
  import opened Insertion
  import opened Deletion
  import opened Retry
  import opened Runs
  import Power

  /** The name is in every directory a power cut may leave, on the same file, and that file is on stable storage
      with these contents. */
  ghost predicate Kept(model: CrashModel, d: Disk, n: Name, content: Content) {
    && Has(d, n, content, true)
    && forall dir :: Possible(model, d, dir) ==> n in dir && dir[n] == Visible(d)[n]
  }

  lemma KeptSurvives(model: CrashModel, d: Disk, n: Name, content: Content, after: Disk)
    requires Kept(model, d, n, content) && PowerCut(model, d, after)
    ensures n in ViewOf(after) && ViewOf(after)[n] == content
  {
    assert Visible(after) == after.durable;
  }

  // ------------------------------------------------------------------
  // Instructions that leave a kept name alone
  // ------------------------------------------------------------------

  lemma KeptPend(model: CrashModel, d: Disk, op: Op, n: Name, content: Content)
    requires Kept(model, d, n, content) && Spares(op, n)
    ensures Kept(model, Pend(d, op), n, content)
  {
    VisibleAfter(d, op);
    forall dir | Possible(model, Pend(d, op), dir) ensures n in dir && dir[n] == Visible(d)[n] {
      var prev := PossibleAfter(model, d, op, dir);
      if !Possible(model, d, dir) { LiveIsPossible(model, d, prev); }
    }
  }

  lemma KeptGrows(model: CrashModel, d: Disk, inodes: seq<Inode>, n: Name, content: Content)
    requires Kept(model, d, n, content) && |d.inodes| <= |inodes| && inodes[Visible(d)[n]] == d.inodes[Visible(d)[n]]
    ensures Kept(model, d.(inodes := inodes), n, content)
  {
    var e := d.(inodes := inodes);
    forall dir | Possible(model, e, dir) ensures n in dir && dir[n] == Visible(e)[n] { assert Possible(model, d, dir); }
  }

  lemma KeptStep(model: CrashModel, d: Disk, i: Instr, n: Name, content: Content)
    requires WellFormed(d) && Kept(model, d, n, content) && LeavesAlone(i, n)
    ensures Kept(model, Step(d, i), n, content)
  {
    VisibleInRange(d);
    match i
    case Create(name, c) =>
      var grown := d.(inodes := d.inodes + [Inode(c, false)]);
      KeptGrows(model, d, grown.inodes, n, content);
      KeptPend(model, grown, Put(name, |d.inodes|), n, content);
    case Fsync(name) =>
      if name in Visible(d) { KeptGrows(model, d, Step(d, i).inodes, n, content); }
    case Link(from, to) =>
      if from in Visible(d) { KeptPend(model, d, Put(to, Visible(d)[from]), n, content); }
    case Rename(from, to) =>
      if from in Visible(d) { KeptPend(model, d, Shift(from, to, Visible(d)[from]), n, content); }
    case Unlink(name) =>
      if name in Visible(d) { KeptPend(model, d, Drop(name), n, content); }
    case Barrier =>
  }

  lemma {:induction false} KeptAlong(model: CrashModel, d: Disk, trace: seq<Instr>, n: Name, content: Content)
    requires WellFormed(d) && Kept(model, d, n, content)
    requires forall i :: 0 <= i < |trace| ==> LeavesAlone(trace[i], n)
    ensures Kept(model, Exec(d, trace), n, content)
    decreases |trace|
  {
    if trace != [] {
      KeptStep(model, d, trace[0], n, content);
      StepSees(d, trace[0]);
      KeptAlong(model, Step(d, trace[0]), trace[1..], n, content);
    }
  }

  // ------------------------------------------------------------------
  // A merge
  // ------------------------------------------------------------------

  lemma HasPend(d: Disk, op: Op, n: Name, content: Content)
    requires Has(d, n, content, true) && Spares(op, n)
    ensures Has(Pend(d, op), n, content, true)
  {
    VisibleAfter(d, op);
  }

  lemma HasStep(d: Disk, i: Instr, n: Name, content: Content)
    requires WellFormed(d) && Has(d, n, content, true) && LeavesAlone(i, n)
    ensures Has(Step(d, i), n, content, true)
  {
    match i
    case Create(name, c) => HasPend(d.(inodes := d.inodes + [Inode(c, false)]), Put(name, |d.inodes|), n, content);
    case Fsync(_) => VisibleInRange(d);
    case Link(from, to) => if from in Visible(d) { HasPend(d, Put(to, Visible(d)[from]), n, content); }
    case Rename(from, to) => if from in Visible(d) { HasPend(d, Shift(from, to, Visible(d)[from]), n, content); }
    case Unlink(name) => if name in Visible(d) { HasPend(d, Drop(name), n, content); }
    case Barrier =>
  }

  lemma {:induction false} HasAlong(d: Disk, trace: seq<Instr>, n: Name, content: Content)
    requires WellFormed(d) && Has(d, n, content, true) && AllLeaveAlone(trace, n)
    ensures Has(Exec(d, trace), n, content, true)
    decreases |trace|
  {
    if trace != [] {
      HasStep(d, trace[0], n, content);
      StepSees(d, trace[0]);
      HasAlong(Step(d, trace[0]), trace[1..], n, content);
    }
  }

  lemma LinkHas(d: Disk, from: Name, to: Name, content: Content)
    requires WellFormed(d) && Has(d, from, content, true)
    ensures WellFormed(Step(d, Link(from, to))) && Has(Step(d, Link(from, to)), to, content, true)
  {
    StepSees(d, Link(from, to));
    VisibleAfter(d, Put(to, Visible(d)[from]));
  }

  /** The steps of a merge up to the name of its target, in the order that matters here. */
  lemma UpToTheLink(job: Job, f: Fate) returns (made: seq<Instr>, record: seq<Instr>, rest: seq<Instr>)
    ensures UpToTheTarget(job, f) == made + (record + ([Link(Building(job.plan.target), Data(job.plan.target))] + rest))
    ensures made == Made(job) && AllLeaveAlone(record, Building(job.plan.target)) && AllLeaveAlone(rest, Data(job.plan.target))
  {
    var t := job.plan.target;
    made, rest := Made(job), Stray(job, f);
    record := [Create(RecordTmp(t), Sidecar(job.plan)), Fsync(RecordTmp(t)), Rename(RecordTmp(t), Record(t)), Barrier];
    assert UpToTheTarget(job, f) == made + (record + ([Link(Building(t), Data(t))] + rest));
  }

  function Made(job: Job): seq<Instr> {
    [Unlink(Building(job.plan.target)), Create(Building(job.plan.target), Target(job)), Fsync(Building(job.plan.target))]
  }

  /** The target under its own name, its contents synced, before the barrier that confirms the name. */
  lemma TargetIsBuilt(d: Disk, job: Job, f: Fate)
    requires WellFormed(d)
    ensures Has(Exec(d, UpToTheTarget(job, f)), Data(job.plan.target), Target(job), true)
  {
    var b, n := Building(job.plan.target), Data(job.plan.target);
    var made, record, rest := UpToTheLink(job, f);
    ExecConcat(d, made, record + ([Link(b, n)] + rest));
    BuildIsMade(d, job);
    LinkedIsThere(Exec(d, made), b, n, Target(job), record, rest);
  }

  lemma LinkedIsThere(d: Disk, b: Name, n: Name, content: Content, before: seq<Instr>, rest: seq<Instr>)
    requires WellFormed(d) && Has(d, b, content, true) && AllLeaveAlone(before, b) && AllLeaveAlone(rest, n)
    ensures Has(Exec(d, before + ([Link(b, n)] + rest)), n, content, true)
  {
    ExecConcat(d, before, [Link(b, n)] + rest);
    HasAlong(d, before, b, content);
    var r := Exec(d, before);
    ExecCons(r, Link(b, n), rest);
    LinkHas(r, b, n, content);
    HasAlong(Step(r, Link(b, n)), rest, n, content);
  }

  lemma BuildIsMade(d: Disk, job: Job)
    requires WellFormed(d)
    ensures Has(Exec(d, Made(job)), Building(job.plan.target), Target(job), true)
  {
    var b := Building(job.plan.target);
    var c, y := Create(b, Target(job)), Fsync(b);
    assert Made(job) == [Unlink(b)] + ([c] + ([y] + []));
    ExecCons(d, Unlink(b), [c] + ([y] + []));
    var d1 := Step(d, Unlink(b));
    ExecCons(d1, c, [y] + []);
    CreateHas(d1, b, Target(job));
    ExecCons(Step(d1, c), y, []);
    FsyncHas(Step(d1, c), b, Target(job));
  }

  lemma BarrierKeeps(model: CrashModel, d: Disk, n: Name, content: Content)
    requires WellFormed(d) && Has(d, n, content, true)
    ensures Kept(model, Step(d, Barrier), n, content)
  {
  }

  lemma ExecPastTheTarget(d: Disk, job: Job, f: Fate, k: nat, rest: seq<Instr>)
    requires WellFormed(d) && k <= |MergeTrace(job, f)| && MergeTrace(job, f)[..k] == UpToTheTarget(job, f) + ([Barrier] + rest)
    ensures WellFormed(Step(Exec(d, UpToTheTarget(job, f)), Barrier))
    ensures Exec(d, MergeTrace(job, f)[..k]) == Exec(Step(Exec(d, UpToTheTarget(job, f)), Barrier), rest)
  {
    StepSees(Exec(d, UpToTheTarget(job, f)), Barrier);
    ExecConcat(d, UpToTheTarget(job, f), [Barrier] + rest);
    ExecCons(Exec(d, UpToTheTarget(job, f)), Barrier, rest);
  }

  lemma ToldSteps(job: Job, f: Fate, k: nat)
    requires Told(job, f, k)
    ensures k - |Prelude(job, f)| <= |RetireSources(job, f)|
    ensures MergeTrace(job, f)[..k] == UpToTheTarget(job, f) + ([Barrier] + RetireSources(job, f)[..k - |Prelude(job, f)|])
  {
    ConfirmedTrace(job, f);
    CutPast(UpToTheTarget(job, f), [Barrier], RetireSources(job, f), k);
  }

  lemma CutPast(a: seq<Instr>, b: seq<Instr>, c: seq<Instr>, k: nat)
    requires |a + b| <= k <= |a + b + c|
    ensures (a + b + c)[..k] == a + (b + c[..k - |a + b|])
  {
  }

  /** A merge that went as far as the catalogue keeps its target from then on. */
  lemma TargetIsKept(model: CrashModel, d: Disk, job: Job, f: Fate, k: nat)
    requires WellFormed(d) && job.plan.target !in job.plan.sources && Told(job, f, k)
    ensures Kept(model, Exec(d, MergeTrace(job, f)[..k]), Data(job.plan.target), Target(job))
  {
    var rest := RestLeavesTarget(job, f, k);
    ExecPastTheTarget(d, job, f, k, rest);
    TargetPastBarrier(model, d, job, f, rest);
  }

  lemma RestLeavesTarget(job: Job, f: Fate, k: nat) returns (rest: seq<Instr>)
    requires job.plan.target !in job.plan.sources && Told(job, f, k)
    ensures MergeTrace(job, f)[..k] == UpToTheTarget(job, f) + ([Barrier] + rest) && AllLeaveAlone(rest, Data(job.plan.target))
  {
    ToldSteps(job, f, k);
    rest := RetireSources(job, f)[..k - |Prelude(job, f)|];
    EndLeavesAlone(job, f, job.plan.target);
    CutLeavesAlone(RetireSources(job, f), k - |Prelude(job, f)|, Data(job.plan.target));
  }

  lemma TargetPastBarrier(model: CrashModel, d: Disk, job: Job, f: Fate, rest: seq<Instr>)
    requires WellFormed(d) && AllLeaveAlone(rest, Data(job.plan.target))
    ensures var p := Exec(d, UpToTheTarget(job, f));
            WellFormed(Step(p, Barrier)) && Kept(model, Exec(Step(p, Barrier), rest), Data(job.plan.target), Target(job))
  {
    TargetIsBuilt(d, job, f);
    KeptPastBarrier(model, Exec(d, UpToTheTarget(job, f)), rest, Data(job.plan.target), Target(job));
  }

  lemma KeptPastBarrier(model: CrashModel, p: Disk, rest: seq<Instr>, n: Name, content: Content)
    requires WellFormed(p) && Has(p, n, content, true) && AllLeaveAlone(rest, n)
    ensures WellFormed(Step(p, Barrier)) && Kept(model, Exec(Step(p, Barrier), rest), n, content)
  {
    StepSees(p, Barrier);
    BarrierKeeps(model, p, n, content);
    KeptAlong(model, Step(p, Barrier), rest, n, content);
  }

  /** A merge cut anywhere keeps what is not its target and was not a source when the catalogue was told. */
  lemma CutMergeKeeps(model: CrashModel, d: Disk, job: Job, f: Fate, k: nat, v: nat, content: Content)
    requires WellFormed(d) && Kept(model, d, Data(v), content) && v != job.plan.target
    requires Untold(job, f, k) || (Told(job, f, k) && v !in job.plan.sources)
    ensures Kept(model, Exec(d, MergeTrace(job, f)[..k]), Data(v), content)
  {
    if Untold(job, f, k) {
      UntoldLeavesAlone(job, f, k, v);
    } else {
      MergeLeavesAlone(job, f, v);
      CutLeavesAlone(MergeTrace(job, f), k, Data(v));
    }
    KeptAlong(model, d, MergeTrace(job, f)[..k], Data(v), content);
  }

  // ------------------------------------------------------------------
  // A recovery
  // ------------------------------------------------------------------

  lemma RemovesLeaveAlone(trace: seq<Instr>, n: Name)
    requires AllRemove(trace) && Unlink(n) !in trace
    ensures AllLeaveAlone(trace, n)
  {
    forall i | 0 <= i < |trace| ensures LeavesAlone(trace[i], n) { assert Removes(trace[i]) && trace[i] in trace; }
  }

  lemma RecoveryRemoves(view: View, k: nat)
    requires RecoveryTrace(view).Some? && k <= |RecoveryTrace(view).value|
    ensures AllRemove(RecoveryTrace(view).value[..k])
  {
    SettleRemoves(view);
    var settle := SettleRecord(view).value;
    AllRemoveCut(settle, Removals(Strays(ViewExec(view, settle))), RecoveryTrace(view).value[..k]);
  }

  /** A recovery cut anywhere keeps what it did not unlink. */
  lemma CutRecoveryKeeps(model: CrashModel, d: Disk, k: nat, v: nat, content: Content)
    requires WellFormed(d) && Kept(model, d, Data(v), content)
    requires RecoveryTrace(ViewOf(d)).Some? && k <= |RecoveryTrace(ViewOf(d)).value|
    requires Unlink(Data(v)) !in RecoveryTrace(ViewOf(d)).value[..k]
    ensures Kept(model, Exec(d, RecoveryTrace(ViewOf(d)).value[..k]), Data(v), content)
  {
    var trace := RecoveryTrace(ViewOf(d)).value[..k];
    RecoveryRemoves(ViewOf(d), k);
    RemovesLeaveAlone(trace, Data(v));
    KeptAlong(model, d, trace, Data(v), content);
  }

  // ------------------------------------------------------------------
  // Writing
  // ------------------------------------------------------------------

  lemma {:induction false} KeptPends(model: CrashModel, d: Disk, ops: seq<Op>, n: Name, content: Content)
    requires Kept(model, d, n, content) && forall i :: 0 <= i < |ops| ==> Spares(ops[i], n)
    ensures Kept(model, d.(pending := d.pending + ops), n, content)
    decreases |ops|
  {
    if ops == [] {
      assert d.pending + [] == d.pending;
    } else {
      var init, last := ops[..|ops| - 1], ops[|ops| - 1];
      KeptPends(model, d, init, n, content);
      KeptPend(model, d.(pending := d.pending + init), last, n, content);
      assert d.pending + init + [last] == d.pending + ops;
    }
  }

  /** Writing to other files, and making new ones. */
  lemma KeptThroughWrites(model: CrashModel, d: Disk, e: Disk, s: State, s2: State, c: nat, v: nat, content: Content)
    requires WellFormed(d) && Kept(model, d, Data(v), content) && Power.Writes(d, e, s, s2, c)
    requires File(c, v) in s2.durable && File(c, v) in s.files
    ensures Kept(model, e, Data(v), content)
  {
    var ops := e.pending[|d.pending|..];
    assert d.pending + ops == e.pending;
    KeptGrows(model, d, e.inodes, Data(v), content);
    forall i | 0 <= i < |ops| ensures Spares(ops[i], Data(v)) { assert Power.MakesNew(e.pending[|d.pending| + i], s, c); }
    KeptPends(model, d.(inodes := e.inodes), ops, Data(v), content);
    assert d.(inodes := e.inodes).(pending := e.pending) == e;
  }

  // ------------------------------------------------------------------
  // Over whole runs
  // ------------------------------------------------------------------

  /** The file of a version, kept with the entries it shows. */
  ghost predicate KeptFile(model: CrashModel, d: Disk, v: nat) {
    exists content: Content :: Kept(model, d, Data(v), content) && content.Rows?
  }

  ghost predicate KeptIn(model: CrashModel, x: Power.Machine, f: File) {
    f.cls < |x.disks| && KeptFile(model, x.disks[f.cls], f.version)
  }

  /** A power cut keeps every one of these versions. */
  ghost predicate Keeping(model: CrashModel, x: Power.Machine, kept: set<File>) {
    forall f :: f in kept ==> KeptIn(model, x, f)
  }

  function FilesAt(c: nat, versions: seq<nat>): (r: set<File>)
    ensures forall f: File :: f in r <==> f.cls == c && f.version in versions
  {
    var r := set v | v in versions :: File(c, v);
    assert forall f: File :: f.cls == c && f.version in versions ==> f == File(c, f.version);
    r
  }

  function Merging(kept: set<File>, c: nat, plan: Plan): set<File> { kept - FilesAt(c, plan.sources) + {File(c, plan.target)} }

  function Catalogues(x: Power.Machine): set<File> { if x.run.open.Some? then x.run.open.value.files.Keys else {} }

  function DurableIn(x: Power.Machine): set<File> { if x.run.open.Some? then x.run.open.value.durable else {} }

  /** What recovery unlinks in `k` steps, or in all of them. */
  predicate RetiredBy(view: View, k: Option<nat>, v: nat) {
    RecoveryTrace(view).Some?
    && Unlink(Data(v)) in if k.Some? && k.value <= |RecoveryTrace(view).value| then RecoveryTrace(view).value[..k.value] else RecoveryTrace(view).value
  }

  /** Which versions are kept after a step: all of them after a complete `sync`; what was not written to after an
      insertion or a deletion; after a merge, run to its end or left or cut when the catalogue had been told, what was
      not merged away, and the target; after a recovery what it did not unlink; and whatever was after a death, a power
      cut or a merge stopped earlier. */
  function KeptAfter(x: Power.Machine, step: Power.Move, y: Power.Machine, kept: set<File>): set<File> {
    match step
    case Does(e) => KeptAfterEvent(x, e, y, kept)
    case Syncs(whole) => if whole then Catalogues(y) else kept
    case LosesPower => kept
  }

  function KeptAfterEvent(x: Power.Machine, e: Event, y: Power.Machine, kept: set<File>): set<File> {
    match e
    case Insert(_, _, _) => kept * DurableIn(y)
    case Delete(_) => kept * DurableIn(y)
    case MergeOne(c, job, f) => if Catalogued(f) then Merging(kept, c, job.plan) else kept
    case MergeThrows(c, job, f, k) => if File(c, job.plan.target) in Catalogues(y) then Merging(kept, c, job.plan) else kept
    case DieInMerge(c, job, f, k) => if Told(job, f, k) then Merging(kept, c, job.plan) else kept
    case RecoverPart(c, k) => set f | f in kept && !(f.cls == c && c < |x.run.views| && RetiredBy(x.run.views[c], Some(k), f.version))
    case Open => set f | f in kept && !(f.cls < |x.run.views| && RetiredBy(x.run.views[f.cls], None, f.version))
    case _ => kept
  }

  lemma KeptIsVisible(model: CrashModel, d: Disk, v: nat) returns (content: Content)
    requires KeptFile(model, d, v)
    ensures Kept(model, d, Data(v), content) && content.Rows? && Data(v) in ViewOf(d) && ViewOf(d)[Data(v)] == content
  {
    content :| Kept(model, d, Data(v), content) && content.Rows?;
  }

  /** A kept version of a class that mirrors its directory is catalogued. */
  lemma KeptIsListed(model: CrashModel, x: Power.Machine, s: State, f: File)
    requires Power.Shows(x) && KeptIn(model, x, f) && Mirrors(x.run.views, s) && |x.run.views| == |x.disks|
    ensures f in s.files
  {
    var content := KeptIsVisible(model, x.disks[f.cls], f.version);
    assert ViewOf(x.disks[f.cls]) == x.run.views[f.cls];
    MirroredFile(x.run.views, s, f.cls, f.version);
    assert f == File(f.cls, f.version);
  }

  /** Insertions and deletions. */
  lemma WritingKeepsOne(model: CrashModel, capacities: seq<nat>, x: Power.Machine, m: Table, e: Event, y: Power.Machine, m2: Table, g: File)
    requires Inv(capacities, x.run, m) && Power.Shows(x) && |y.disks| == |x.disks| && (e.Insert? || e.Delete?)
    requires Happens(capacities, x.run, m, e, y.run, m2) && Power.WritesAll(x, y) && Inv(capacities, y.run, m2)
    requires KeptIn(model, x, g) && g in DurableIn(y)
    ensures KeptIn(model, y, g)
  {
    var s, s2, c, v := x.run.open.value, y.run.open.value, g.cls, g.version;
    var content := KeptIsVisible(model, x.disks[c], v);
    if Serving(x.run) { KeptIsListed(model, x, s, g); }
    assert g == File(c, v) && Power.Writes(x.disks[c], y.disks[c], s, s2, c);
    KeptThroughWrites(model, x.disks[c], y.disks[c], s, s2, c, v, content);
  }

  predicate MergedAway(told: bool, c: nat, job: Job, g: File) { told && g in FilesAt(c, job.plan.sources) }

  predicate MadeByMerge(told: bool, c: nat, job: Job, g: File) { told && g == File(c, job.plan.target) }

  /** A merge, run, left or cut. */
  lemma MergingKeepsOne(model: CrashModel, x: Power.Machine, c: nat, job: Job, f: Fate, k: nat, told: bool, y: Power.Machine, g: File)
    requires Power.Shows(x) && MayMerge(x.run, c, job) && c < |x.disks| && MayHave(job, f, k, told)
    requires y.disks == x.disks[c := Exec(x.disks[c], MergeTrace(job, f)[..k])]
    requires MadeByMerge(told, c, job, g) || (KeptIn(model, x, g) && !MergedAway(told, c, job, g))
    ensures KeptIn(model, y, g)
  {
    if MadeByMerge(told, c, job, g) {
      TargetIsKept(model, x.disks[c], job, f, k);
    } else if g.cls == c {
      assert ViewOf(x.disks[c]) == x.run.views[c];
      var content := KeptIsVisible(model, x.disks[c], g.version);
      assert g.version != job.plan.target;
      CutMergeKeeps(model, x.disks[c], job, f, k, g.version, content);
    }
  }

  lemma MergingSplits(kept: set<File>, c: nat, job: Job, told: bool, g: File)
    requires g in if told then Merging(kept, c, job.plan) else kept
    ensures MadeByMerge(told, c, job, g) || (g in kept && !MergedAway(told, c, job, g))
  {
  }

  /** What a merge takes out of `kept` with a source is in its target, entry by entry. */
  lemma SourceIsInTarget(capacities: seq<nat>, r: Run, m: Table, c: nat, job: Job, v: nat, k: Key)
    requires Inv(capacities, r, m) && MayMerge(r, c, job) && v in job.plan.sources && k in Tables(r.views[c])[v]
    ensures k in job.merged && job.merged[k] == Tables(r.views[c])[v][k]
  {
    var ts := Tables(r.views[c]);
    assert MirrorsClass(r.views[c], r.open.value, c);
    ClassPartition(r.open.value, m, capacities, c);
    MergedOfHolds(ts, job.plan.sources, Slice(m, capacities, c));
    assert Holds(ts, v, k);
  }

  lemma RecoveringKeepsOne(model: CrashModel, x: Power.Machine, c: nat, k: nat, y: Power.Machine, g: File)
    requires Power.Shows(x) && c < |x.disks| && KeptIn(model, x, g)
    requires RecoveryTrace(ViewOf(x.disks[c])).Some? && k <= |RecoveryTrace(ViewOf(x.disks[c])).value|
    requires y.disks == x.disks[c := Exec(x.disks[c], RecoveryTrace(ViewOf(x.disks[c])).value[..k])]
    requires g.cls == c ==> !RetiredBy(x.run.views[c], Some(k), g.version)
    ensures KeptIn(model, y, g)
  {
    if g.cls == c {
      assert ViewOf(x.disks[c]) == x.run.views[c];
      var content := KeptIsVisible(model, x.disks[c], g.version);
      CutRecoveryKeeps(model, x.disks[c], k, g.version, content);
    }
  }

  /** What recovery leaves under a canonical name gives the class a version. */
  lemma OpeningKeepsOne(model: CrashModel, d: Disk, e: Disk, v: nat)
    requires WellFormed(d) && KeptFile(model, d, v) && Power.OpensOn(d, e) && !RetiredBy(ViewOf(d), None, v)
    ensures KeptFile(model, e, v)
  {
    var trace := RecoveryTrace(ViewOf(d)).value;
    var content := KeptIsVisible(model, d, v);
    assert trace[..|trace|] == trace;
    CutRecoveryKeeps(model, d, |trace|, v, content);
    ExecSees(d, trace);
    assert v in DataVersions(ViewExec(ViewOf(d), trace));
  }

  lemma CuttingKeepsOne(model: CrashModel, d: Disk, after: Disk, v: nat)
    requires KeptFile(model, d, v) && PowerCut(model, d, after)
    ensures KeptFile(model, after, v)
  {
    var content := KeptIsVisible(model, d, v);
    KeptCut(model, d, after, Data(v), content);
  }

  lemma KeptCut(model: CrashModel, d: Disk, after: Disk, n: Name, content: Content)
    requires Kept(model, d, n, content) && PowerCut(model, d, after)
    ensures Kept(model, after, n, content)
  {
    assert Visible(after) == after.durable;
    forall dir | Possible(model, after, dir) ensures n in dir && dir[n] == Visible(after)[n] { assert dir == after.durable; }
  }

  lemma SyncKeepsOne(model: CrashModel, capacities: seq<nat>, x: Power.Machine, m: Table, y: Power.Machine, g: File)
    requires Inv(capacities, x.run, m) && Power.Shows(x) && x.run.open.Some? && g in x.run.open.value.files && |y.disks| == |x.disks|
    requires forall c :: 0 <= c < |x.disks| ==> y.disks[c] == CutTo(x.disks[c], Visible(x.disks[c]))
    ensures KeptIn(model, y, g)
  {
    ServedOnce(capacities, x.run, m);
    assert ViewOf(x.disks[g.cls]) == x.run.views[g.cls];
    SyncedIsKept(model, x.disks[g.cls], g.version);
  }

  lemma SyncedIsKept(model: CrashModel, d: Disk, v: nat)
    requires WellFormed(d) && Data(v) in ViewOf(d) && ViewOf(d)[Data(v)].Rows?
    ensures KeptFile(model, CutTo(d, Visible(d)), v)
  {
    var e := CutTo(d, Visible(d));
    VisibleInRange(d);
    assert Visible(e) == e.durable;
    assert Kept(model, e, Data(v), ViewOf(d)[Data(v)]);
  }

  lemma RaisedKeepsOne(model: CrashModel, d: Disk, e: Disk, v: nat)
    requires KeptFile(model, d, v) && Power.Raised(d, e)
    ensures KeptFile(model, e, v)
  {
    var content := KeptIsVisible(model, d, v);
    assert e == d.(inodes := e.inodes);
    KeptGrows(model, d, e.inodes, Data(v), content);
  }

  /** Every step keeps what it should. */
  lemma StepKeepsKept(model: CrashModel, widest: nat, capacities: seq<nat>, x: Power.Machine, m: Table, step: Power.Move,
                      y: Power.Machine, m2: Table, kept: set<File>)
    requires Power.Keeps(model, widest, capacities, x, m) && Power.Moves(model, widest, capacities, x, m, step, y, m2)
    requires Keeping(model, x, kept)
    ensures Keeping(model, y, KeptAfter(x, step, y, kept))
  {
    Power.MoveKeeps(model, widest, capacities, x, m, step, y, m2);
    forall g | g in KeptAfter(x, step, y, kept) ensures KeptIn(model, y, g) {
      StepKeepsOne(model, widest, capacities, x, m, step, y, m2, kept, g);
    }
  }

  lemma StepKeepsOne(model: CrashModel, widest: nat, capacities: seq<nat>, x: Power.Machine, m: Table, step: Power.Move,
                     y: Power.Machine, m2: Table, kept: set<File>, g: File)
    requires Power.Keeps(model, widest, capacities, x, m) && Power.Moves(model, widest, capacities, x, m, step, y, m2)
    requires Inv(capacities, y.run, m2) && Keeping(model, x, kept)
    requires g in KeptAfter(x, step, y, kept)
    ensures KeptIn(model, y, g)
  {
    match step
    case Does(e) => EventKeepsOne(model, widest, capacities, x, m, e, y, m2, kept, g);
    case Syncs(whole) => SyncsKeepOne(model, widest, capacities, x, m, whole, y, m2, kept, g);
    case LosesPower => LossKeepsOne(model, widest, capacities, x, m, y, m2, kept, g);
  }

  lemma SyncsKeepOne(model: CrashModel, widest: nat, capacities: seq<nat>, x: Power.Machine, m: Table, whole: bool,
                     y: Power.Machine, m2: Table, kept: set<File>, g: File)
    requires Inv(capacities, x.run, m) && Power.Shows(x) && Power.Moves(model, widest, capacities, x, m, Power.Syncs(whole), y, m2)
    requires Keeping(model, x, kept) && g in if whole then Catalogues(y) else kept
    ensures KeptIn(model, y, g)
  {
    if whole {
      WholeSync(model, widest, capacities, x, m, y, m2);
      SyncKeepsOne(model, capacities, x, m, y, g);
    } else {
      PartSyncKeepsOne(model, x, y, kept, g);
    }
  }

  lemma WholeSync(model: CrashModel, widest: nat, capacities: seq<nat>, x: Power.Machine, m: Table, y: Power.Machine, m2: Table)
    requires Power.Moves(model, widest, capacities, x, m, Power.Syncs(true), y, m2)
    ensures x.run.open.Some? && |y.disks| == |x.disks| && Catalogues(y) == Catalogues(x)
    ensures forall c :: 0 <= c < |x.disks| ==> y.disks[c] == CutTo(x.disks[c], Visible(x.disks[c]))
  {
  }

  lemma PartSyncKeepsOne(model: CrashModel, x: Power.Machine, y: Power.Machine, kept: set<File>, g: File)
    requires |y.disks| == |x.disks| && (forall c :: 0 <= c < |x.disks| ==> Power.Raised(x.disks[c], y.disks[c]))
    requires Keeping(model, x, kept) && g in kept
    ensures KeptIn(model, y, g)
  {
    assert KeptIn(model, x, g);
    RaisedKeepsOne(model, x.disks[g.cls], y.disks[g.cls], g.version);
  }

  lemma LossKeepsOne(model: CrashModel, widest: nat, capacities: seq<nat>, x: Power.Machine, m: Table, y: Power.Machine, m2: Table,
                     kept: set<File>, g: File)
    requires Power.Moves(model, widest, capacities, x, m, Power.LosesPower, y, m2) && Keeping(model, x, kept) && g in kept
    ensures KeptIn(model, y, g)
  {
    assert KeptIn(model, x, g);
    CuttingKeepsOne(model, x.disks[g.cls], y.disks[g.cls], g.version);
  }

  lemma EventKeepsOne(model: CrashModel, widest: nat, capacities: seq<nat>, x: Power.Machine, m: Table, e: Event, y: Power.Machine,
                      m2: Table, kept: set<File>, g: File)
    requires Inv(capacities, x.run, m) && Power.Shows(x) && Inv(capacities, y.run, m2) && Keeping(model, x, kept)
    requires Happens(capacities, x.run, m, e, y.run, m2) && Power.OnDisks(model, widest, x, e, y) && |y.disks| == |x.disks|
    requires g in KeptAfterEvent(x, e, y, kept)
    ensures KeptIn(model, y, g)
  {
    match e
    case Insert(_, _, _) => WritingKeepsOne(model, capacities, x, m, e, y, m2, g);
    case Delete(_) => WritingKeepsOne(model, capacities, x, m, e, y, m2, g);
    case RecoverPart(c, k) => RecoveringKeepsOne(model, x, c, k, y, g);
    case Open => OpeningKeepsOne(model, x.disks[g.cls], y.disks[g.cls], g.version);
    case LoseActive =>
    case Die =>
    case Flush =>
    case _ => MergeEventKeepsOne(model, widest, capacities, x, m, e, y, m2, kept, g);
  }

  lemma MergeEventKeepsOne(model: CrashModel, widest: nat, capacities: seq<nat>, x: Power.Machine, m: Table, e: Event, y: Power.Machine,
                           m2: Table, kept: set<File>, g: File)
    requires Power.Shows(x) && Keeping(model, x, kept) && (e.MergeOne? || e.MergeThrows? || e.DieInMerge?)
    requires Happens(capacities, x.run, m, e, y.run, m2) && Power.OnDisks(model, widest, x, e, y)
    requires g in KeptAfterEvent(x, e, y, kept) && Inv(capacities, x.run, m)
    ensures KeptIn(model, y, g)
  {
    match e
    case MergeOne(c, job, f) => MergeKeepsOne(model, x, c, job, f, y, kept, g);
    case MergeThrows(c, job, f, k) =>
      ThrowTold(x.run.open.value, y.run.open.value, c, job, f, k);
      CutKeepsOne(model, x, c, job, f, k, File(c, job.plan.target) in Catalogues(y), y, kept, g);
    case DieInMerge(c, job, f, k) => CutKeepsOne(model, x, c, job, f, k, Told(job, f, k), y, kept, g);
    case _ =>
  }

  lemma CutKeepsOne(model: CrashModel, x: Power.Machine, c: nat, job: Job, f: Fate, k: nat, told: bool, y: Power.Machine, kept: set<File>, g: File)
    requires Power.Shows(x) && MayMerge(x.run, c, job) && c < |x.disks| && MayHave(job, f, k, told) && Keeping(model, x, kept)
    requires y.disks == x.disks[c := Exec(x.disks[c], MergeTrace(job, f)[..k])]
    requires g in if told then Merging(kept, c, job.plan) else kept
    ensures KeptIn(model, y, g)
  {
    MergingSplits(kept, c, job, told, g);
    MergingKeepsOne(model, x, c, job, f, k, told, y, g);
  }

  lemma MergeKeepsOne(model: CrashModel, x: Power.Machine, c: nat, job: Job, f: Fate, y: Power.Machine, kept: set<File>, g: File)
    requires Power.Shows(x) && MayMerge(x.run, c, job) && c < |x.disks| && Keeping(model, x, kept)
    requires y.disks == x.disks[c := Exec(x.disks[c], MergeTrace(job, f))]
    requires g in if Catalogued(f) then Merging(kept, c, job.plan) else kept
    ensures KeptIn(model, y, g)
  {
    var k := |MergeTrace(job, f)|;
    assert MergeTrace(job, f)[..k] == MergeTrace(job, f);
    if Catalogued(f) { ConfirmedTrace(job, f); }
    CutKeepsOne(model, x, c, job, f, k, Catalogued(f), y, kept, g);
  }

  /** The catalogue has the target exactly when it was told. */
  lemma ThrowTold(s: State, s2: State, c: nat, job: Job, f: Fate, k: nat)
    requires Shaped(s) && c < |s.catalogs| && AfterThrow(s, s2, c, job, f, k) && job.plan.target == s.highest[c] + 1 && k <= |MergeTrace(job, f)|
    ensures MayHave(job, f, k, File(c, job.plan.target) in s2.files)
  {
    var t := File(c, job.plan.target);
    assert CatalogOk(s.catalogs[c], s.highest[c]) && t !in s.files;
    if Told(job, f, k) && AfterSteps(s, s2, c, job, f) { assert job.plan.target in ClassTables(s2, c); }
  }

  /** Which versions are kept after the first `n` steps of a run. */
  function KeptOver(xs: seq<Power.Machine>, steps: seq<Power.Move>, n: nat): set<File>
    requires |xs| == |steps| + 1 && n <= |steps|
  {
    if n == 0 then {} else KeptAfter(xs[n - 1], steps[n - 1], xs[n], KeptOver(xs, steps, n - 1))
  }

  /** One step of a run. */
  ghost predicate StepsOn(model: CrashModel, widest: nat, capacities: seq<nat>, xs: seq<Power.Machine>, ms: seq<Table>,
                          steps: seq<Power.Move>, n: nat)
  {
    && n < |steps| && |xs| == |ms| == |steps| + 1 && Power.Keeps(model, widest, capacities, xs[n], ms[n])
    && Power.Moves(model, widest, capacities, xs[n], ms[n], steps[n], xs[n + 1], ms[n + 1])
  }

  lemma RunStepsOn(model: CrashModel, widest: nat, capacities: seq<nat>, xs: seq<Power.Machine>, ms: seq<Table>, steps: seq<Power.Move>)
    requires Power.IsRun(model, widest, capacities, xs, ms, steps) && Power.Keeps(model, widest, capacities, xs[0], ms[0])
    ensures forall i: nat :: i < |steps| ==> StepsOn(model, widest, capacities, xs, ms, steps, i)
  {
    forall i: nat | i < |steps| ensures StepsOn(model, widest, capacities, xs, ms, steps, i) {
      Power.RunsKeep(model, widest, capacities, xs, ms, steps, i);
    }
  }

  /** The step carries what is kept over. */
  ghost predicate Carries(model: CrashModel, xs: seq<Power.Machine>, steps: seq<Power.Move>, n: nat)
    requires |xs| == |steps| + 1 && n < |steps|
  {
    Keeping(model, xs[n], KeptOver(xs, steps, n)) ==> Keeping(model, xs[n + 1], KeptOver(xs, steps, n + 1))
  }

  lemma StepCarries(model: CrashModel, widest: nat, capacities: seq<nat>, xs: seq<Power.Machine>, ms: seq<Table>,
                    steps: seq<Power.Move>, n: nat)
    requires StepsOn(model, widest, capacities, xs, ms, steps, n)
    ensures Carries(model, xs, steps, n)
  {
    var kept := KeptOver(xs, steps, n);
    if Keeping(model, xs[n], kept) {
      StepKeepsKept(model, widest, capacities, xs[n], ms[n], steps[n], xs[n + 1], ms[n + 1], kept);
    }
  }

  lemma {:induction false} CarriedOver(model: CrashModel, xs: seq<Power.Machine>, steps: seq<Power.Move>, n: nat)
    requires |xs| == |steps| + 1 && n <= |steps|
    requires forall i: nat :: i < |steps| ==> Carries(model, xs, steps, i)
    ensures Keeping(model, xs[n], KeptOver(xs, steps, n))
  {
    if n > 0 {
      CarriedOver(model, xs, steps, n - 1);
      assert Carries(model, xs, steps, n - 1);
    }
  }

  /** At any point of any run, with any amount of unflushed work behind it. */
  lemma KeepingOver(model: CrashModel, widest: nat, capacities: seq<nat>, xs: seq<Power.Machine>, ms: seq<Table>,
                    steps: seq<Power.Move>, n: nat)
    requires |xs| == |steps| + 1 && n <= |steps|
    requires forall i: nat :: i < |steps| ==> StepsOn(model, widest, capacities, xs, ms, steps, i)
    ensures Keeping(model, xs[n], KeptOver(xs, steps, n))
  {
    forall i: nat | i < |steps| ensures Carries(model, xs, steps, i) {
      StepCarries(model, widest, capacities, xs, ms, steps, i);
    }
    CarriedOver(model, xs, steps, n);
  }

  /** At any point of any run, with any amount of unflushed work behind it, losing power under either crash model keeps
      every version that a complete `sync` or a merge confirmed and nothing has written to or retired since, in the
      middle of a merge or of a recovery and after a death too: its name, and exactly the entries it showed before the
      cut, which are those of the instance if one has it open. */
  lemma FlushedEndures(model: CrashModel, widest: nat, capacities: seq<nat>, xs: seq<Power.Machine>, ms: seq<Table>,
                       steps: seq<Power.Move>, n: nat, f: File, after: Disk)
    requires Power.IsRun(model, widest, capacities, xs, ms, steps) && n <= |steps|
    requires Power.Keeps(model, widest, capacities, xs[0], ms[0])
    requires f in KeptOver(xs, steps, n) && f.cls < |xs[n].disks| && PowerCut(model, xs[n].disks[f.cls], after)
    ensures Data(f.version) in ViewOf(after) && Data(f.version) in ViewOf(xs[n].disks[f.cls])
    ensures ViewOf(after)[Data(f.version)] == ViewOf(xs[n].disks[f.cls])[Data(f.version)]
    ensures xs[n].run.open.Some? && f in xs[n].run.open.value.files ==>
              ShowsAs(ViewOf(after), f.version, xs[n].run.open.value.files[f])
  {
    RunStepsOn(model, widest, capacities, xs, ms, steps);
    KeepingOver(model, widest, capacities, xs, ms, steps, n);
    Power.RunsKeep(model, widest, capacities, xs, ms, steps, n);
    KeepingSurvives(model, capacities, xs[n], ms[n], KeptOver(xs, steps, n), f, after);
  }

  lemma KeepingSurvives(model: CrashModel, capacities: seq<nat>, x: Power.Machine, m: Table, kept: set<File>, f: File, after: Disk)
    requires Inv(capacities, x.run, m) && Power.Shows(x)
    requires Keeping(model, x, kept) && f in kept && f.cls < |x.disks| && PowerCut(model, x.disks[f.cls], after)
    ensures Data(f.version) in ViewOf(after) && Data(f.version) in ViewOf(x.disks[f.cls])
    ensures ViewOf(after)[Data(f.version)] == ViewOf(x.disks[f.cls])[Data(f.version)]
    ensures x.run.open.Some? && f in x.run.open.value.files ==> ShowsAs(ViewOf(after), f.version, x.run.open.value.files[f])
  {
    assert KeptIn(model, x, f) && ViewOf(x.disks[f.cls]) == x.run.views[f.cls];
    var content := KeptIsVisible(model, x.disks[f.cls], f.version);
    KeptSurvives(model, x.disks[f.cls], Data(f.version), content, after);
    if x.run.open.Some? { ServedOnce(capacities, x.run, m); }
  }

  // ------------------------------------------------------------------
  // What is kept is what the instance takes for durable
  // ------------------------------------------------------------------

  lemma InsertedDurable(s: State, c: nat, key: Key, entry: Entry, luck: InsertLuck)
    requires Shaped(s) && c < |s.catalogs|
    ensures Inserted(s, c, key, entry, luck).0.durable <= s.durable
  {
    ActiveIsThere(s, c);
    if luck.guardRefuses {
      RotatedIsShaped(s, c);
      if key !in s.files[ActiveOf(s, c)] && !luck.preventiveFails { TriedTwiceDurable(Rotated(s, c), c, key, entry, luck); }
    } else {
      TriedTwiceDurable(s, c, key, entry, luck);
    }
  }

  lemma TriedDurable(s: State, c: nat, key: Key, entry: Entry, e: Emplace)
    requires Shaped(s) && c < |s.catalogs|
    ensures Tried(s, c, key, entry, e).0.durable <= s.durable
  {
  }

  lemma TriedTwiceDurable(s: State, c: nat, key: Key, entry: Entry, luck: InsertLuck)
    requires Shaped(s) && c < |s.catalogs|
    ensures TriedTwice(s, c, key, entry, luck).0.durable <= s.durable
  {
    var (s1, r1) := Tried(s, c, key, entry, luck.first);
    TriedIsShaped(s, c, key, entry, luck.first);
    TriedDurable(s, c, key, entry, luck.first);
    if r1 == Err(InsufficientSpace) && !luck.capacityFails {
      RotatedIsShaped(s1, c);
      TriedDurable(Rotated(s1, c), c, key, entry, luck.second);
    }
  }

  /** Once a complete `sync` has made them the same they stay the same, until a `sync` that fails part of the way. */
  lemma KeptIsDurable(model: CrashModel, widest: nat, capacities: seq<nat>, x: Power.Machine, m: Table, step: Power.Move,
                      y: Power.Machine, m2: Table, kept: set<File>)
    requires Power.Keeps(model, widest, capacities, x, m) && Power.Moves(model, widest, capacities, x, m, step, y, m2)
    requires x.run.open.Some? && y.run.open.Some? && (step == Power.Syncs(true) || kept == x.run.open.value.durable)
    requires step != Power.Syncs(false)
    ensures KeptAfter(x, step, y, kept) == y.run.open.value.durable
  {
    match step
    case Does(e) => EventIsDurable(capacities, x, m, e, y, m2, kept);
    case _ =>
  }

  lemma EventIsDurable(capacities: seq<nat>, x: Power.Machine, m: Table, e: Event, y: Power.Machine, m2: Table, kept: set<File>)
    requires Inv(capacities, x.run, m) && Happens(capacities, x.run, m, e, y.run, m2) && e != Flush
    requires x.run.open.Some? && y.run.open.Some? && kept == x.run.open.value.durable
    ensures KeptAfterEvent(x, e, y, kept) == y.run.open.value.durable
  {
    var s, s2 := x.run.open.value, y.run.open.value;
    match e
    case Insert(key, entry, luck) =>
      if Working(x.run) && ClassFor(capacities, entry) < |capacities| { InsertedDurable(s, ClassFor(capacities, entry), key, entry, luck); }
    case Delete(requests) =>
      assert s2.durable <= s.durable;
    case MergeOne(c, job, f) => StepsAreDurable(s, s2, c, job, f);
    case MergeThrows(c, job, f, k) => ThrowIsDurable(s, s2, c, job, f, k);
    case _ =>
  }

  lemma StepsKeepFile(s: State, s2: State, c: nat, job: Job, f: Fate, g: File)
    requires Shaped(s) && AfterSteps(s, s2, c, job, f) && g in s.durable && g.cls < |s.catalogs|
    requires !MergedAway(Catalogued(f), c, job, g)
    requires g.cls == c ==> g.version != job.plan.target
    ensures g in s2.files && g in s2.durable
  {
    var d, v := g.cls, g.version;
    assert g == File(d, v) && v in s.catalogs[d];
    assert v in ClassTables(s, d);
    assert v in ClassTables(s2, d);
  }

  lemma SourcesAreNotDurable(s: State, s2: State, c: nat, job: Job, f: Fate, g: File)
    requires Shaped(s) && AfterSteps(s, s2, c, job, f) && job.plan.target == s.highest[c] + 1 && Coherent(job.plan, job.plan.target)
    requires g in s.durable
    ensures g in s2.durable <==> !MergedAway(Catalogued(f), c, job, g)
  {
    assert CatalogOk(s.catalogs[g.cls], s.highest[g.cls]) && g == File(g.cls, g.version) && g.version in s.catalogs[g.cls];
    if MergedAway(Catalogued(f), c, job, g) {
      assert g.version !in ClassTables(s2, c);
    } else {
      StepsKeepFile(s, s2, c, job, f, g);
    }
  }

  lemma TargetIsDurable(s: State, s2: State, c: nat, job: Job, f: Fate)
    requires AfterSteps(s, s2, c, job, f) && Catalogued(f)
    ensures File(c, job.plan.target) in s2.durable
  {
    assert job.plan.target in ClassTables(s2, c);
    assert File(c, job.plan.target) in s2.files;
  }

  lemma NewlyDurable(s: State, s2: State, c: nat, job: Job, f: Fate, g: File)
    requires AfterSteps(s, s2, c, job, f) && g in s2.durable && g !in s.durable
    ensures MadeByMerge(Catalogued(f), c, job, g)
  {
  }

  lemma StepsAreDurable(s: State, s2: State, c: nat, job: Job, f: Fate)
    requires Shaped(s) && AfterSteps(s, s2, c, job, f) && job.plan.target == s.highest[c] + 1 && Coherent(job.plan, job.plan.target)
    ensures s2.durable == if Catalogued(f) then Merging(s.durable, c, job.plan) else s.durable
  {
    forall g | g in s.durable ensures g in s2.durable <==> !MergedAway(Catalogued(f), c, job, g) {
      SourcesAreNotDurable(s, s2, c, job, f, g);
    }
    forall g | g in s2.durable && g !in s.durable ensures MadeByMerge(Catalogued(f), c, job, g) {
      NewlyDurable(s, s2, c, job, f, g);
    }
    if Catalogued(f) { TargetIsDurable(s, s2, c, job, f); }
  }

  lemma ThrowIsDurable(s: State, s2: State, c: nat, job: Job, f: Fate, k: nat)
    requires Shaped(s) && c < |s.catalogs| && AfterThrow(s, s2, c, job, f, k) && k <= |MergeTrace(job, f)|
    requires job.plan.target == s.highest[c] + 1 && Coherent(job.plan, job.plan.target)
    ensures s2.durable == if File(c, job.plan.target) in s2.files then Merging(s.durable, c, job.plan) else s.durable
  {
    assert CatalogOk(s.catalogs[c], s.highest[c]) && File(c, job.plan.target) !in s.files;
    if Told(job, f, k) && AfterSteps(s, s2, c, job, f) {
      StepsAreDurable(s, s2, c, job, f);
      assert job.plan.target in ClassTables(s2, c);
    }
  }

  /** From a complete `sync` to the `sync` after it, failed or not, in one process: between the two. */
  predicate SinceSync(xs: seq<Power.Machine>, steps: seq<Power.Move>, i: nat, n: nat) {
    && i < n <= |steps| && |xs| == |steps| + 1 && steps[i] == Power.Syncs(true)
    && (forall j :: i < j < n ==> steps[j] != Power.Syncs(false))
    && forall j :: i <= j <= n ==> xs[j].run.open.Some?
  }

  lemma StepKeepsDurable(model: CrashModel, widest: nat, capacities: seq<nat>, xs: seq<Power.Machine>, ms: seq<Table>,
                         steps: seq<Power.Move>, n: nat, kept: set<File>)
    requires StepsOn(model, widest, capacities, xs, ms, steps, n)
    requires xs[n].run.open.Some? && xs[n + 1].run.open.Some? && steps[n] != Power.Syncs(false)
    requires steps[n] == Power.Syncs(true) || kept == xs[n].run.open.value.durable
    ensures KeptAfter(xs[n], steps[n], xs[n + 1], kept) == xs[n + 1].run.open.value.durable
  {
    KeptIsDurable(model, widest, capacities, xs[n], ms[n], steps[n], xs[n + 1], ms[n + 1], kept);
  }

  lemma LastSinceSync(xs: seq<Power.Machine>, steps: seq<Power.Move>, i: nat, n: nat)
    requires SinceSync(xs, steps, i, n)
    ensures xs[n - 1].run.open.Some? && xs[n].run.open.Some? && steps[n - 1] != Power.Syncs(false)
    ensures if n - 1 == i then steps[n - 1] == Power.Syncs(true) else SinceSync(xs, steps, i, n - 1)
  {
  }

  /** The step makes or leaves what is kept what is durable. */
  ghost predicate StaysSame(xs: seq<Power.Machine>, steps: seq<Power.Move>, n: nat)
    requires |xs| == |steps| + 1 && n < |steps|
  {
    xs[n].run.open.Some? && xs[n + 1].run.open.Some? && steps[n] != Power.Syncs(false)
    && (steps[n] == Power.Syncs(true) || KeptOver(xs, steps, n) == DurableIn(xs[n])) ==>
      KeptOver(xs, steps, n + 1) == DurableIn(xs[n + 1])
  }

  lemma StepStaysSame(model: CrashModel, widest: nat, capacities: seq<nat>, xs: seq<Power.Machine>, ms: seq<Table>,
                      steps: seq<Power.Move>, n: nat)
    requires StepsOn(model, widest, capacities, xs, ms, steps, n)
    ensures StaysSame(xs, steps, n)
  {
    var kept := KeptOver(xs, steps, n);
    if xs[n].run.open.Some? && xs[n + 1].run.open.Some? && steps[n] != Power.Syncs(false)
       && (steps[n] == Power.Syncs(true) || kept == DurableIn(xs[n])) {
      StepKeepsDurable(model, widest, capacities, xs, ms, steps, n, kept);
    }
  }

  lemma {:induction false} SameSinceSync(xs: seq<Power.Machine>, steps: seq<Power.Move>, i: nat, n: nat)
    requires SinceSync(xs, steps, i, n) && forall j: nat :: j < |steps| ==> StaysSame(xs, steps, j)
    ensures KeptOver(xs, steps, n) == DurableIn(xs[n])
  {
    LastSinceSync(xs, steps, i, n);
    if n - 1 > i { SameSinceSync(xs, steps, i, n - 1); }
    assert StaysSame(xs, steps, n - 1);
  }

  lemma KeptOverIsDurable(model: CrashModel, widest: nat, capacities: seq<nat>, xs: seq<Power.Machine>, ms: seq<Table>,
                          steps: seq<Power.Move>, i: nat, n: nat)
    requires SinceSync(xs, steps, i, n)
    requires forall j: nat :: j < |steps| ==> StepsOn(model, widest, capacities, xs, ms, steps, j)
    ensures KeptOver(xs, steps, n) == xs[n].run.open.value.durable
  {
    forall j: nat | j < |steps| ensures StaysSame(xs, steps, j) {
      StepStaysSame(model, widest, capacities, xs, ms, steps, j);
    }
    SameSinceSync(xs, steps, i, n);
  }

  /** So from a complete `sync` on, whatever is inserted, deleted or merged and however little of it is flushed,
      losing power keeps every version the instance holds for durable, with its entries. */
  lemma DurableEndures(model: CrashModel, widest: nat, capacities: seq<nat>, xs: seq<Power.Machine>, ms: seq<Table>,
                       steps: seq<Power.Move>, i: nat, n: nat, f: File, after: Disk)
    requires Power.IsRun(model, widest, capacities, xs, ms, steps) && SinceSync(xs, steps, i, n)
    requires Power.Keeps(model, widest, capacities, xs[0], ms[0])
    requires f in xs[n].run.open.value.durable && f.cls < |xs[n].disks| && PowerCut(model, xs[n].disks[f.cls], after)
    ensures f in xs[n].run.open.value.files && ShowsAs(ViewOf(after), f.version, xs[n].run.open.value.files[f])
  {
    RunStepsOn(model, widest, capacities, xs, ms, steps);
    KeptOverIsDurable(model, widest, capacities, xs, ms, steps, i, n);
    DurableIsStored(model, widest, capacities, xs, ms, steps, n);
    FlushedEndures(model, widest, capacities, xs, ms, steps, n, f, after);
  }

  lemma DurableIsStored(model: CrashModel, widest: nat, capacities: seq<nat>, xs: seq<Power.Machine>, ms: seq<Table>,
                        steps: seq<Power.Move>, n: nat)
    requires Power.IsRun(model, widest, capacities, xs, ms, steps) && n <= |steps|
    requires Power.Keeps(model, widest, capacities, xs[0], ms[0])
    ensures xs[n].run.open.Some? ==> xs[n].run.open.value.durable <= xs[n].run.open.value.files.Keys
  {
    Power.RunsKeep(model, widest, capacities, xs, ms, steps, n);
  }
}
