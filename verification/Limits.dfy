/**
  Where the protocol stops short of what it promises, and exactly when.

  1. A record naming more than sixty-four sources is one recovery will not read.
  2. A record whose removal was never confirmed can come back beside the next one.
  3. A process that died between publishing a target and confirming its name is reopened on a
     target that a power cut can still take away, after its sources.
*/
module Limits {
  import opened Basics
  import opened Disk
  import opened Recovery
  import opened CrashSafety
  import opened Merge
  import opened Settling
  import opened MergeEffect
  import opened CrashRuns

  /** Whenever the process stops here, the next open can run recovery. */
  ghost predicate Reopens(model: CrashModel, d: Disk) {
    forall c :: Crash(model, d, c) ==> RecoveryTrace(ViewOf(c)).Some?
  }

  ghost predicate ReopensAtEveryCut(model: CrashModel, d: Disk, trace: seq<Instr>)
    requires WellFormed(d)
  {
    forall k :: 0 <= k <= |trace| ==> Reopens(model, Exec(d, trace[..k]))
  }

  lemma SafeReopens(model: CrashModel, d: Disk, trace: seq<Instr>, g: Goal)
    requires SafeAlong(model, d, trace, g) && g.widest <= MAX_SOURCES
    ensures ReopensAtEveryCut(model, d, trace)
  {
    forall k, c | 0 <= k <= |trace| && Crash(model, Exec(d, trace[..k]), c)
      ensures RecoveryTrace(ViewOf(c)).Some?
    {
      SafeAtEveryCut(model, d, trace, g, k);
      SafeIsConserved(model, Exec(d, trace[..k]), c, g);
    }
  }

  /** A power cut that keeps `dir`, and leaves every file as it is. */
  function CutTo(d: Disk, dir: Dir): Disk {
    Disk(seq(|d.inodes|, i requires 0 <= i < |d.inodes| => d.inodes[i].(synced := true)), dir, [])
  }

  lemma CutToIsACut(model: CrashModel, d: Disk, dir: Dir)
    requires Possible(model, d, dir)
    ensures Crash(model, d, CutTo(d, dir))
    ensures ViewOf(CutTo(d, dir)) == ViewIn(d.inodes, dir)
  {
  }

  // ------------------------------------------------------------------
  // 1. Too many sources
  // ------------------------------------------------------------------

  lemma WideRecordRefused(model: CrashModel, e: Disk, plan: Plan, g: Goal)
    requires Safe(model, e, g) && |plan.sources| > MAX_SOURCES
    requires Record(plan.target) in ViewOf(e) && ViewOf(e)[Record(plan.target)] == Sidecar(plan)
    ensures !Reopens(model, e)
  {
    VisibleIsPossible(model, e.durable, e.pending);
    CutToIsACut(model, e, Visible(e));
    var c := CutTo(e, Visible(e));
    SafeIsConserved(model, e, c, g);
    assert !NoWiderThan(ViewOf(c), MAX_SOURCES);
  }

  /** A merge that gets as far as naming its record can be reopened wherever it stops if and
      only if it has at most sixty-four sources. Nothing limits a group to that many. */
  lemma WideMergesDoNotReopen(model: CrashModel, d: Disk, job: Job, f: Fate, g: Goal)
    requires Safe(model, d, g) && Quiet(model, d, job.plan.target) && FitsView(job, ViewOf(d))
    requires g.widest == |job.plan.sources| && NamesRecord(f)
    ensures ReopensAtEveryCut(model, d, MergeTrace(job, f)) <==> |job.plan.sources| <= MAX_SOURCES
  {
    MergeIsSafe(model, d, job, f, g);
    if |job.plan.sources| <= MAX_SOURCES {
      SafeReopens(model, d, MergeTrace(job, f), g);
    } else {
      var naming := NamingTrace(job);
      TraceOfNaming(job, f);
      assert MergeTrace(job, f)[..|naming|] == naming;
      SafeAtEveryCut(model, d, MergeTrace(job, f), g, |naming|);
      var e := Exec(d, naming);
      ExecSees(d, naming);
      NamingSees(ViewOf(d), job);
      WideRecordRefused(model, e, job.plan, g);
    }
  }


  // ------------------------------------------------------------------
  // Losing only the oldest pending change
  // ------------------------------------------------------------------

  lemma {:induction false} SkippingTheFirst(start: Dir, ops: seq<Op>)
    requires |ops| > 0
    ensures PossibleFrom(AnySubset, start, ops, Apply(start, ops[1..]))
  {
    var before := ops[..|ops| - 1];
    if |ops| == 1 {
      assert before == [] && ops[1..] == [];
    } else {
      SkippingTheFirst(start, before);
      assert ops[1..][..|ops[1..]| - 1] == before[1..];
    }
  }

  /** The directory without the oldest pending change. */
  function Skip(d: Disk): Dir
    requires |d.pending| > 0
  {
    Apply(d.durable, d.pending[1..])
  }

  lemma SkipPend(d: Disk, op: Op)
    requires |d.pending| > 0
    ensures Skip(Pend(d, op)) == ApplyOp(Skip(d), op)
    ensures Visible(Pend(d, op)) == ApplyOp(Visible(d), op)
  {
    var ops := d.pending + [op];
    assert ops[1..][..|ops[1..]| - 1] == d.pending[1..];
    VisibleAfter(d, op);
  }

  lemma SkipIsPossible(d: Disk)
    requires |d.pending| > 0
    ensures Possible(AnySubset, d, Skip(d))
  {
    SkippingTheFirst(d.durable, d.pending);
  }

  // ------------------------------------------------------------------
  // 2. A removal that was never confirmed
  // ------------------------------------------------------------------

  /** The oldest pending change is the removal of a record, and losing only it brings the record back. */
  ghost predicate Lingers(d: Disk, t: nat) {
    && WellFormed(d) && |d.pending| > 0
    && Record(t) in Skip(d)
    && Visible(d) == Skip(d) - {Record(t)}
  }

  predicate Avoids(i: Instr, n: Name) {
    match i
    case Create(name, _) => name != n
    case Fsync(name) => true
    case Link(from, to) => from != n && to != n
    case Rename(from, to) => from != n && to != n
    case Unlink(name) => name != n
    case Barrier => false
  }

  lemma LingersOn(d: Disk, t: nat, i: Instr)
    requires Lingers(d, t) && Avoids(i, Record(t))
    ensures Lingers(Step(d, i), t)
  {
    StepSees(d, i);
    match i
    case Create(name, content) =>
      LingersPend(Disk(d.inodes + [Inode(content, false)], d.durable, d.pending), t, Put(name, |d.inodes|));
    case Fsync(_) =>
    case Link(from, to) =>
      if from in Visible(d) { LingersPend(d, t, Put(to, Visible(d)[from])); }
    case Rename(from, to) =>
      if from in Visible(d) { LingersPend(d, t, Shift(from, to, Visible(d)[from])); }
    case Unlink(name) =>
      if name in Visible(d) { LingersPend(d, t, Drop(name)); }
  }

  /** A pending change of another name. */
  predicate Spares(op: Op, n: Name) {
    match op
    case Put(name, _) => name != n
    case Drop(name) => name != n
    case Shift(from, to, _) => from != n && to != n
  }

  lemma LingersPend(d: Disk, t: nat, op: Op)
    requires |d.pending| > 0 && Record(t) in Skip(d) && Visible(d) == Skip(d) - {Record(t)}
    requires Spares(op, Record(t))
    ensures var e := Pend(d, op);
            |e.pending| > 0 && Record(t) in Skip(e) && Visible(e) == Skip(e) - {Record(t)}
  {
    SkipPend(d, op);
  }

  lemma {:induction false} LingersThrough(d: Disk, t: nat, trace: seq<Instr>)
    requires Lingers(d, t)
    requires forall i :: 0 <= i < |trace| ==> Avoids(trace[i], Record(t))
    ensures Lingers(Exec(d, trace), t)
    decreases |trace|
  {
    if trace != [] {
      LingersOn(d, t, trace[0]);
      LingersThrough(Step(d, trace[0]), t, trace[1..]);
    }
  }

  /** Two records: recovery refuses to choose. */
  lemma TwoRecordsRefused(view: View, t: nat, u: nat)
    requires Record(t) in view && Record(u) in view && t != u
    ensures RecoveryTrace(view).None?
  {
    RecordsAreNamed(view);
    var l := Listed(Records(view));
    assert t in l && u in l;
  }

  /** A complete merge up to its second last barrier. */
  function BeforeTheEnd(job: Job, f: Fate): seq<Instr> {
    NamingTrace(job) + [Barrier] + [Link(Building(job.plan.target), Data(job.plan.target))] + Stray(job, f) + [Barrier]
      + Retire(job.plan.sources, f.stuck)
  }

  function Stray(job: Job, f: Fate): seq<Instr> {
    if f.strayRemoved then [Unlink(Building(job.plan.target))] else []
  }

  function End(job: Job, f: Fate): seq<Instr> {
    [Barrier] + ([Unlink(Record(job.plan.target))] + (if f.finalBarrier then [Barrier] else []))
  }

  lemma Regroup(a: seq<Instr>, b: seq<Instr>, c: seq<Instr>, d: seq<Instr>, e: seq<Instr>, r: seq<Instr>, z: seq<Instr>)
    ensures a + (b + (c + (d + (e + (r + z))))) == (a + b + c + d + e + r) + z
  {
  }

  lemma SplitAtTheEnd(job: Job, f: Fate)
    requires OutcomeOf(job, f) == Merged
    ensures MergeTrace(job, f) == BeforeTheEnd(job, f) + End(job, f)
  {
    TraceOfNaming(job, f);
    assert ConfirmRetired(job, f) == End(job, f);
    Regroup(NamingTrace(job), [Barrier], [Link(Building(job.plan.target), Data(job.plan.target))], Stray(job, f),
            [Barrier], Retire(job.plan.sources, f.stuck), End(job, f));
  }

  lemma RecordStillThere(d: Disk, job: Job, f: Fate)
    requires WellFormed(d)
    ensures Record(job.plan.target) in ViewOf(Exec(d, BeforeTheEnd(job, f)))
  {
    var t := job.plan.target;
    var rest := [Barrier] + [Link(Building(t), Data(t))] + Stray(job, f) + [Barrier];
    var retire := Retire(job.plan.sources, f.stuck);
    RegroupToRetired(NamingTrace(job), [Barrier], [Link(Building(t), Data(t))], Stray(job, f), [Barrier], retire);
    ExecSees(d, BeforeTheEnd(job, f));
    ViewExecConcat(ViewOf(d), NamingTrace(job), rest + retire);
    NamingSees(ViewOf(d), job);
    RecordOutlasts(ViewExec(ViewOf(d), NamingTrace(job)), rest, job.plan.sources, f.stuck, t);
  }

  lemma RegroupToRetired(a: seq<Instr>, b: seq<Instr>, c: seq<Instr>, d: seq<Instr>, e: seq<Instr>, r: seq<Instr>)
    ensures a + b + c + d + e + r == a + ((b + c + d + e) + r)
  {
  }

  lemma RecordOutlasts(v: View, rest: seq<Instr>, sources: seq<nat>, stuck: set<nat>, t: nat)
    requires Record(t) in v && forall i :: 0 <= i < |rest| ==> Avoids(rest[i], Record(t)) || rest[i].Barrier?
    ensures Record(t) in ViewExec(v, rest + Retire(sources, stuck))
  {
    ViewExecConcat(v, rest, Retire(sources, stuck));
    KeepsName(v, rest, Record(t));
    RetireSees(ViewExec(v, rest), sources, stuck);
  }

  lemma EndLingers(h: Disk, job: Job, f: Fate)
    requires WellFormed(h) && Record(job.plan.target) in ViewOf(h)
    ensures f.finalBarrier ==> Exec(h, End(job, f)).pending == []
    ensures !f.finalBarrier ==> Lingers(Exec(h, End(job, f)), job.plan.target)
  {
    var gone := Unlink(Record(job.plan.target));
    var tail := if f.finalBarrier then [Barrier] else [];
    StepSees(h, Barrier);
    var b := Step(h, Barrier);
    ExecCons(h, Barrier, [gone] + tail);
    ExecCons(b, gone, tail);
    if f.finalBarrier {
      assert tail == [Barrier] + [];
      ExecCons(Step(b, gone), Barrier, []);
    } else {
      RemovalLingers(b, job.plan.target);
    }
  }

  lemma RemovalLingers(b: Disk, t: nat)
    requires WellFormed(b) && b.pending == [] && Record(t) in ViewOf(b)
    ensures Lingers(Step(b, Unlink(Record(t))), t)
  {
    assert Visible(b) == b.durable;
    var u := Pend(b, Drop(Record(t)));
    StepSees(b, Unlink(Record(t)));
    assert u.pending[1..] == [];
    VisibleAfter(b, Drop(Record(t)));
  }

  /** The disk a complete merge leaves, by its last barrier. */
  lemma MergeEnds(d: Disk, job: Job, f: Fate, g: Goal)
    requires Safe(AnySubset, d, g) && Quiet(AnySubset, d, job.plan.target) && FitsView(job, ViewOf(d))
    requires |job.plan.sources| <= g.widest && OutcomeOf(job, f) == Merged
    ensures var e := Exec(d, MergeTrace(job, f));
            && Safe(AnySubset, e, g) && NoRecord(ViewOf(e)) && Data(job.plan.target) in ViewOf(e)
            && (f.finalBarrier ==> e.pending == [])
            && (!f.finalBarrier ==> Lingers(e, job.plan.target))
  {
    var trace := MergeTrace(job, f);
    MergeIsSafe(AnySubset, d, job, f, g);
    SafeAtEveryCut(AnySubset, d, trace, g, |trace|);
    assert trace[..|trace|] == trace;
    QuietSeesNoRecord(d, job.plan.target);
    MergeEffects(ViewOf(d), job, f);
    ExecSees(d, trace);
    TablesOf(ViewOf(Exec(d, trace)));
    assert job.plan.target in Tables(ViewOf(Exec(d, trace)));
    SplitAtTheEnd(job, f);
    ExecConcat(d, BeforeTheEnd(job, f), End(job, f));
    RecordStillThere(d, job, f);
    EndLingers(Exec(d, BeforeTheEnd(job, f)), job, f);
  }

  lemma QuietSeesNoRecord(d: Disk, t: nat)
    requires WellFormed(d) && Quiet(AnySubset, d, t)
    ensures NoRecord(ViewOf(d))
  {
    VisibleIsLive(AnySubset, d);
    assert NothingInFlight(Visible(d), t);
  }

  lemma {:induction false} KeepsName(view: View, trace: seq<Instr>, n: Name)
    requires n in view
    requires forall i :: 0 <= i < |trace| ==> Avoids(trace[i], n) || trace[i].Barrier?
    ensures n in ViewExec(view, trace)
    decreases |trace|
  {
    if trace != [] { KeepsName(ViewStep(view, trace[0]), trace[1..], n); }
  }

  /** After a complete merge, the next one can be reopened wherever it stops if and only if the
      barrier after the first one's record removal had held. The code only warns when it fails. */
  lemma UnconfirmedRemovalsComeBack(d: Disk, job: Job, f: Fate, next: Job, nextFate: Fate, g: Goal)
    requires Safe(AnySubset, d, g) && Quiet(AnySubset, d, job.plan.target) && FitsView(job, ViewOf(d))
    requires |job.plan.sources| <= g.widest <= MAX_SOURCES && OutcomeOf(job, f) == Merged
    requires FitsView(next, ViewOf(Exec(d, MergeTrace(job, f))))
    requires |next.plan.sources| <= g.widest && NamesRecord(nextFate)
    ensures ReopensAtEveryCut(AnySubset, Exec(d, MergeTrace(job, f)), MergeTrace(next, nextFate)) <==> f.finalBarrier
  {
    var e := Exec(d, MergeTrace(job, f));
    MergeEnds(d, job, f, g);
    if f.finalBarrier {
      QuietWhenSettled(e, next.plan.target);
      MergeIsSafe(AnySubset, e, next, nextFate, g);
      SafeReopens(AnySubset, e, MergeTrace(next, nextFate), g);
    } else {
      LingeringRecordReturns(e, job.plan.target, next, nextFate);
    }
  }

  lemma QuietWhenSettled(e: Disk, t: nat)
    requires WellFormed(e) && e.pending == [] && NoRecord(ViewOf(e)) && Data(t) !in ViewOf(e)
    ensures Quiet(AnySubset, e, t)
  {
    VisibleInRange(e);
    forall dir | Live(AnySubset, e, dir) ensures NothingInFlight(dir, t) {
      assert dir == Visible(e);
      forall u ensures Record(u) !in dir { assert Record(u) !in ViewOf(e); }
    }
  }

  lemma LingeringRecordReturns(e: Disk, t: nat, next: Job, nextFate: Fate)
    requires Lingers(e, t) && next.plan.target != t && NamesRecord(nextFate)
    ensures !ReopensAtEveryCut(AnySubset, e, MergeTrace(next, nextFate))
  {
    NamingBringsBack(e, t, next);
    TraceOfNaming(next, nextFate);
    RefusesAt(AnySubset, e, MergeTrace(next, nextFate), NamingTrace(next));
  }

  lemma NamingBringsBack(e: Disk, t: nat, next: Job)
    requires Lingers(e, t) && next.plan.target != t
    ensures !Reopens(AnySubset, Exec(e, NamingTrace(next)))
  {
    LingersThrough(e, t, NamingTrace(next));
    NamingNames(e, next);
    TwoRecordsReturn(Exec(e, NamingTrace(next)), t, next.plan.target);
  }

  lemma NamingNames(e: Disk, next: Job)
    requires WellFormed(e)
    ensures WellFormed(Exec(e, NamingTrace(next))) && Record(next.plan.target) in ViewOf(Exec(e, NamingTrace(next)))
  {
    ExecSees(e, NamingTrace(next));
    NamingSees(ViewOf(e), next);
  }

  lemma RefusesAt(model: CrashModel, e: Disk, trace: seq<Instr>, part: seq<Instr>)
    requires WellFormed(e) && part <= trace && !Reopens(model, Exec(e, part))
    ensures !ReopensAtEveryCut(model, e, trace)
  {
    assert trace[..|part|] == part;
  }

  lemma TwoRecordsReturn(n: Disk, t: nat, u: nat)
    requires Lingers(n, t) && u != t && Record(u) in ViewOf(n)
    ensures !Reopens(AnySubset, n)
  {
    SkipIsPossible(n);
    CutToIsACut(AnySubset, n, Skip(n));
    PossibleInRange(AnySubset, n.inodes, n.durable, n.pending, Skip(n));
    VisibleInRange(n);
    assert Record(u) in Visible(n);
    TwoRecordsRefused(ViewIn(n.inodes, Skip(n)), t, u);
  }

  // ------------------------------------------------------------------
  // 3. Reopening on a target whose name is not durable
  // ------------------------------------------------------------------

  /** A published target is visible, and losing only the oldest pending change takes it away. */
  ghost predicate Undurable(d: Disk, t: nat, ino: nat) {
    && WellFormed(d) && |d.pending| > 0
    && Data(t) !in Skip(d)
    && Visible(d) == Skip(d)[Data(t) := ino]
  }

  lemma UndurableUnlink(d: Disk, t: nat, ino: nat, n: Name)
    requires Undurable(d, t, ino) && n != Data(t)
    ensures Undurable(Step(d, Unlink(n)), t, ino)
    ensures Skip(Step(d, Unlink(n))) == Skip(d) - {n}
    ensures Step(d, Unlink(n)).inodes == d.inodes
  {
    StepSees(d, Unlink(n));
    if n in Visible(d) { SkipPend(d, Drop(n)); }
  }

  lemma {:induction false} UndurableRetire(d: Disk, t: nat, ino: nat, sources: seq<nat>)
    requires Undurable(d, t, ino) && t !in sources
    ensures var e := Exec(d, Retire(sources, {}));
            Undurable(e, t, ino) && e.inodes == d.inodes
            && Skip(e) == Skip(d) - (set s | s in sources :: Data(s))
    decreases |sources|
  {
    if sources == [] {
      assert Skip(d) - (set s | s in sources :: Data(s)) == Skip(d);
    } else {
      var s := sources[0];
      UndurableUnlink(d, t, ino, Data(s));
      ExecCons(d, Unlink(Data(s)), Retire(sources[1..], {}));
      assert sources == [s] + sources[1..];
      UndurableRetire(Step(d, Unlink(Data(s))), t, ino, sources[1..]);
      assert (set x | x in sources :: Data(x)) == {Data(s)} + (set x | x in sources[1..] :: Data(x));
      assert Skip(d) - {Data(s)} - (set x | x in sources[1..] :: Data(x)) == Skip(d) - (set x | x in sources :: Data(x));
    }
  }

  lemma ReachesBuilt(model: CrashModel, d: Disk, job: Job, g: Goal)
    requires Safe(model, d, g) && Quiet(model, d, job.plan.target) && FitsView(job, ViewOf(d))
    ensures var d1 := Step(d, Unlink(Building(job.plan.target)));
            WellFormed(d1) &&
            var d2 := Step(d1, Create(Building(job.plan.target), Target(job)));
            WellFormed(d2) &&
            var d3 := Step(d2, Fsync(Building(job.plan.target)));
            Safe(model, d3, g) && Quiet(model, d3, job.plan.target) && FitsView(job, ViewOf(d3))
            && Has(d3, Building(job.plan.target), Target(job), true)
  {
    QuietStep(model, d, Unlink(Building(job.plan.target)), job, g);
    MakeFile(model, Step(d, Unlink(Building(job.plan.target))), Building(job.plan.target), Target(job), job, g);
  }

  lemma ReachesNamed(model: CrashModel, d: Disk, job: Job, g: Goal)
    requires Safe(model, d, g) && Quiet(model, d, job.plan.target) && FitsView(job, ViewOf(d))
    requires Has(d, Building(job.plan.target), Target(job), true) && |job.plan.sources| <= g.widest
    ensures var t := job.plan.target;
            var d4 := Step(d, Create(RecordTmp(t), Sidecar(job.plan)));
            WellFormed(d4) &&
            var d5 := Step(d4, Fsync(RecordTmp(t)));
            WellFormed(d5) &&
            NamedAt(model, Step(d5, Rename(RecordTmp(t), Record(t))), job, g)
  {
    var t := job.plan.target;
    MakeRecord(model, d, job, g);
    var d5 := Step(Step(d, Create(RecordTmp(t), Sidecar(job.plan))), Fsync(RecordTmp(t)));
    RenameStep(model, d5, job, g);
    HarmlessKeeps(d5, Rename(RecordTmp(t), Record(t)), Building(t), Target(job), true);
  }

  lemma BarrierRecords(model: CrashModel, d: Disk, job: Job, g: Goal)
    requires Safe(model, d, g) && HoldsRecord(d.inodes, Visible(d), job.plan) && FitsView(job, ViewOf(d))
    requires Has(d, Building(job.plan.target), Target(job), true)
    ensures var r := Step(d, Barrier);
            Safe(model, r, g) && Recorded(model, r, job) && r.pending == []
  {
    BarrierStep(model, d, g);
    StepSees(d, Barrier);
    HarmlessKeeps(d, Barrier, Building(job.plan.target), Target(job), true);
  }

  lemma ReachesNaming(model: CrashModel, d: Disk, job: Job, g: Goal)
    requires Safe(model, d, g) && Quiet(model, d, job.plan.target) && FitsView(job, ViewOf(d))
    requires |job.plan.sources| <= g.widest
    ensures NamedAt(model, Exec(d, NamingTrace(job)), job, g)
  {
    var t := job.plan.target;
    SixSteps(d, Unlink(Building(t)), Create(Building(t), Target(job)), Fsync(Building(t)),
             Create(RecordTmp(t), Sidecar(job.plan)), Fsync(RecordTmp(t)), Rename(RecordTmp(t), Record(t)));
    assert NamedAt(model, Exec(d, NamingTrace(job)), job, g) by {
      ReachesBuilt(model, d, job, g);
      ReachesNamed(model, Step(Step(Step(d, Unlink(Building(t))), Create(Building(t), Target(job))), Fsync(Building(t))), job, g);
    }
  }

  /** The record has its name, and nothing has happened since. */
  ghost predicate NamedAt(model: CrashModel, d: Disk, job: Job, g: Goal) {
    && Safe(model, d, g) && Named(model, d, job.plan) && HoldsRecord(d.inodes, Visible(d), job.plan)
    && FitsView(job, ViewOf(d)) && Has(d, Building(job.plan.target), Target(job), true)
  }

  lemma ReachesRecorded(model: CrashModel, d: Disk, job: Job, g: Goal)
    requires Safe(model, d, g) && Quiet(model, d, job.plan.target) && FitsView(job, ViewOf(d))
    requires |job.plan.sources| <= g.widest
    ensures var r := Step(Exec(d, NamingTrace(job)), Barrier);
            Safe(model, r, g) && Recorded(model, r, job) && r.pending == []
  {
    ReachesNaming(model, d, job, g);
    BarrierRecords(model, Exec(d, NamingTrace(job)), job, g);
  }

  lemma SixSteps(d: Disk, a: Instr, b: Instr, c: Instr, e: Instr, f: Instr, h: Instr)
    requires WellFormed(d)
    ensures WellFormed(Step(d, a)) && WellFormed(Step(Step(d, a), b)) && WellFormed(Step(Step(Step(d, a), b), c))
    ensures WellFormed(Step(Step(Step(Step(d, a), b), c), e))
    ensures WellFormed(Step(Step(Step(Step(Step(d, a), b), c), e), f))
    ensures Exec(d, [a, b, c, e, f, h]) == Step(Step(Step(Step(Step(Step(d, a), b), c), e), f), h)
  {
    var d1 := Step(d, a);
    assert [a, b, c, e, f, h] == [a] + [b, c, e, f, h];
    ExecCons(d, a, [b, c, e, f, h]);
    assert [b, c, e, f, h] == [b] + [c, e, f, h];
    ExecCons(d1, b, [c, e, f, h]);
    var d2 := Step(d1, b);
    assert [c, e, f, h] == [c] + [e, f, h];
    ExecCons(d2, c, [e, f, h]);
    var d3 := Step(d2, c);
    assert [e, f, h] == [e] + [f, h];
    ExecCons(d3, e, [f, h]);
    var d4 := Step(d3, e);
    assert [f, h] == [f] + [h];
    ExecCons(d4, f, [h]);
    var d5 := Step(d4, f);
    assert [h] == [h] + [];
    ExecCons(d5, h, []);
  }

  /** What a merge leaves when it stops at the barrier that was to make its target durable. */
  function UpToTheTarget(job: Job, f: Fate): seq<Instr> {
    NamingTrace(job) + [Barrier] + [Link(Building(job.plan.target), Data(job.plan.target))] + Stray(job, f)
  }

  predicate PublishesTarget(f: Fate) {
    NamesRecord(f) && f.recordBarrier && f.published
  }

  lemma RegroupToTarget(a: seq<Instr>, b: seq<Instr>, c: seq<Instr>, d: seq<Instr>, z: seq<Instr>)
    ensures a + (b + (c + (d + z))) == (a + b + c + d) + z
  {
  }

  lemma TraceToTheTarget(job: Job, f: Fate)
    requires PublishesTarget(f)
    ensures MergeTrace(job, f) == UpToTheTarget(job, f) + ConfirmTarget(job, f)
  {
    TraceOfNaming(job, f);
    RegroupToTarget(NamingTrace(job), [Barrier], [Link(Building(job.plan.target), Data(job.plan.target))], Stray(job, f),
             ConfirmTarget(job, f));
  }

  lemma LinkIsUndurable(r: Disk, job: Job)
    requires Recorded(AnySubset, r, job) && r.pending == []
    ensures var l := Step(r, Link(Building(job.plan.target), Data(job.plan.target)));
            Undurable(l, job.plan.target, Visible(r)[Building(job.plan.target)]) && l.inodes == r.inodes && Skip(l) == Visible(r)
  {
    var t := job.plan.target;
    var ino := Visible(r)[Building(t)];
    StepSees(r, Link(Building(t), Data(t)));
    var l := Pend(r, Put(Data(t), ino));
    assert l.pending[1..] == [];
    VisibleAfter(r, Put(Data(t), ino));
    VisibleInRange(r);
    assert Data(t) !in ViewOf(r);
  }

  /** The disk at the target's barrier: safe, the target visible, and not durable. */
  ghost predicate StoppedAtTheTarget(r: Disk, p: Disk, job: Job, g: Goal) {
    && Safe(AnySubset, r, g) && Recorded(AnySubset, r, job)
    && Safe(AnySubset, p, g) && HoldsBoth(p.inodes, Visible(p), job.plan)
    && p.inodes == r.inodes && |p.pending| > 0
    && (exists ino :: Undurable(p, job.plan.target, ino))
    && forall n :: n in Skip(p) ==> n in Visible(r) && Skip(p)[n] == Visible(r)[n]
  }

  lemma StrayRemoval(r: Disk, l: Disk, job: Job, f: Fate, g: Goal)
    requires StoppedAtTheTarget(r, l, job, g)
    ensures StoppedAtTheTarget(r, Exec(l, Stray(job, f)), job, g)
  {
    if f.strayRemoved {
      var i := Unlink(Building(job.plan.target));
      var ino :| Undurable(l, job.plan.target, ino);
      HarmlessStep(AnySubset, l, i, g);
      UndurableUnlink(l, job.plan.target, ino, Building(job.plan.target));
      VisibleInRange(Step(l, i));
      assert Stray(job, f) == [i] + [];
      ExecCons(l, i, []);
    }
  }

  lemma AtTheTarget(d: Disk, job: Job, f: Fate, g: Goal)
    requires Safe(AnySubset, d, g) && Quiet(AnySubset, d, job.plan.target) && FitsView(job, ViewOf(d))
    requires |job.plan.sources| <= g.widest
    ensures StoppedAtTheTarget(Step(Exec(d, NamingTrace(job)), Barrier), Exec(d, UpToTheTarget(job, f)), job, g)
  {
    var naming := NamingTrace(job);
    var link := Link(Building(job.plan.target), Data(job.plan.target));
    ReachesRecorded(AnySubset, d, job, g);
    var r := Step(Exec(d, naming), Barrier);
    PublishStep(AnySubset, r, job, g);
    LinkIsUndurable(r, job);
    assert StoppedAtTheTarget(r, Step(r, link), job, g);
    StrayRemoval(r, Step(r, link), job, f, g);
    RegroupToTarget(naming, [Barrier], [link], Stray(job, f), []);
    assert Stray(job, f) + [] == Stray(job, f);
    assert UpToTheTarget(job, f) + [] == UpToTheTarget(job, f);
    ExecConcat(d, naming, [Barrier] + ([link] + Stray(job, f)));
    ExecCons(Exec(d, naming), Barrier, [link] + Stray(job, f));
    ExecCons(r, link, Stray(job, f));
  }

  /** With the sources and the target both gone, no canonical file holds what they held. */
  lemma SourcesAndTargetGone(inodes: seq<Inode>, whole: Dir, dir: Dir, job: Job, g: Goal)
    requires Sound(inodes, whole, g) && FitsView(job, ViewIn(inodes, whole)) && Record(job.plan.target) in whole
    requires job.merged != map[]
    requires forall n :: n in dir ==> n in whole && dir[n] == whole[n]
    requires forall s :: s in job.plan.sources ==> Data(s) !in dir
    ensures !Represents(ViewIn(inodes, dir), g.entries)
  {
    var view := ViewIn(inodes, whole);
    var left := ViewIn(inodes, dir);
    NothingSuperseded(view, job, g);
    MergedOfHolds(Tables(view), job.plan.sources, g.entries);
    var k :| k in job.merged;
    var s :| s in job.plan.sources && Holds(Tables(view), s, k);
    forall v ensures !Holds(Effective(left), v, k) {
      TablesOf(view);
      TablesOf(left);
      assert v in Tables(left) ==> v in Tables(view) && Tables(left)[v] == Tables(view)[v] && v !in job.plan.sources;
      assert Holds(Tables(view), v, k) ==> v == s;
    }
  }

  lemma NothingSuperseded(view: View, job: Job, g: Goal)
    requires Represents(view, g.entries) && Record(job.plan.target) in view && Data(job.plan.target) !in view
    ensures Partition(Tables(view), g.entries)
  {
    assert forall u :: Record(u) in view ==> u == job.plan.target;
    assert forall v :: !Superseded(view, v);
    assert Effective(view) == Tables(view);
  }

  /** What recovery of the stopped merge starts with: the removal of every source. */
  lemma RecoveryOfTheStopped(r: Disk, p: Disk, job: Job, g: Goal)
    requires StoppedAtTheTarget(r, p, job, g) && g.widest <= MAX_SOURCES
    ensures RecoveryTrace(ViewOf(p)).Some?
    ensures Retire(job.plan.sources, {}) <= RecoveryTrace(ViewOf(p)).value
  {
    var view := ViewOf(p);
    SafeIsCoherent(AnySubset, p, g);
    RecoveryRuns(view);
    OneRecord(view);
    assert Record(job.plan.target) in view;
    var settle := SettleRecord(view).value;
    assert Listed(Records(view)) == [job.plan.target];
    assert settle == RecoverOne(view, job.plan).value;
    assert Retire(job.plan.sources, {}) <= settle;
  }

  lemma RetireLoses(r: Disk, p: Disk, job: Job, g: Goal)
    requires StoppedAtTheTarget(r, p, job, g) && job.merged != map[]
    ensures !Safe(AnySubset, Exec(p, Retire(job.plan.sources, {})), g)
  {
    var ino :| Undurable(p, job.plan.target, ino);
    UndurableRetire(p, job.plan.target, ino, job.plan.sources);
    var e := Exec(p, Retire(job.plan.sources, {}));
    SkipIsPossible(e);
    VisibleIsLive(AnySubset, r);
    LiveIsPossible(AnySubset, r, Visible(r));
    forall s | s in job.plan.sources ensures Data(s) !in Skip(e) {
      assert Data(s) in (set x | x in job.plan.sources :: Data(x));
    }
    SourcesAndTargetGone(r.inodes, Visible(r), Skip(e), job, g);
    assert !Sound(e.inodes, Skip(e), g);
  }

  lemma StoppedLoses(r: Disk, p: Disk, job: Job, g: Goal)
    requires StoppedAtTheTarget(r, p, job, g) && g.widest <= MAX_SOURCES && job.merged != map[]
    ensures RecoveryTrace(ViewOf(p)).Some?
    ensures !SafeAlong(AnySubset, p, RecoveryTrace(ViewOf(p)).value, g)
  {
    var retire := Retire(job.plan.sources, {});
    RecoveryOfTheStopped(r, p, job, g);
    RetireLoses(r, p, job, g);
    UnsafeCut(AnySubset, p, RecoveryTrace(ViewOf(p)).value, retire, g);
  }

  lemma UnsafeCut(model: CrashModel, d: Disk, trace: seq<Instr>, cut: seq<Instr>, g: Goal)
    requires WellFormed(d) && cut <= trace && !Safe(model, Exec(d, cut), g)
    ensures !SafeAlong(model, d, trace, g)
  {
    assert trace[..|cut|] == cut;
    if SafeAlong(model, d, trace, g) { SafeAtEveryCut(model, d, trace, g, |cut|); }
  }

  // A latched merge that did confirm its target leaves every survivor with record and target.

  lemma RetireLeavesSteady(d: Disk, job: Job, f: Fate, g: Goal)
    requires Safe(AnySubset, d, g) && TargetNamed(AnySubset, d, job.plan)
    requires !(f.markerMatches && AllRetired(job, f) && f.recordRemoved)
    ensures TargetNamed(AnySubset, Exec(d, RetireSources(job, f)), job.plan)
  {
    if f.markerMatches {
      var retire := Retire(job.plan.sources, f.stuck);
      RetirePhase(AnySubset, d, job.plan, job.plan.sources, f.stuck, g);
      ExecConcat(d, retire, ConfirmRetired(job, f));
      var e := Exec(d, retire);
      if f.retireBarrier {
        assert ConfirmRetired(job, f) == [Barrier] + [];
        ExecCons(e, Barrier, []);
        VisibleIsLive(AnySubset, e);
        BarrierStep(AnySubset, e, g);
        StepSees(e, Barrier);
      }
    }
  }

  lemma NamedIsSteady(d: Disk, job: Job, g: Goal)
    requires Safe(AnySubset, d, g) && TargetNamed(AnySubset, d, job.plan)
    ensures Steady(AnySubset, d)
  {
    VisibleIsLive(AnySubset, d);
    SafeIsCoherent(AnySubset, d, g);
    forall t, dir | Record(t) in Visible(d) && Live(AnySubset, d, dir) ensures AgreesOn(d, dir, t) {
      assert HoldsBoth(d.inodes, dir, job.plan) && HoldsBoth(d.inodes, Visible(d), job.plan);
      assert Record(t) in ViewOf(d) && Record(job.plan.target) in ViewOf(d);
    }
  }

  lemma ConfirmedLeavesSafe(p: Disk, job: Job, f: Fate, g: Goal)
    requires Safe(AnySubset, p, g) && HoldsBoth(p.inodes, Visible(p), job.plan)
    requires f.targetBarrier && !(f.markerMatches && AllRetired(job, f) && f.recordRemoved)
    ensures var left := Exec(p, ConfirmTarget(job, f));
            Safe(AnySubset, left, g) && Steady(AnySubset, left)
  {
    ConfirmTargetPhase(AnySubset, p, job, f, g);
    SafeAtEveryCut(AnySubset, p, ConfirmTarget(job, f), g, |ConfirmTarget(job, f)|);
    assert ConfirmTarget(job, f)[..|ConfirmTarget(job, f)|] == ConfirmTarget(job, f);
    BarrierStep(AnySubset, p, g);
    StepSees(p, Barrier);
    ExecCons(p, Barrier, RetireSources(job, f));
    RetireLeavesSteady(Step(p, Barrier), job, f, g);
    NamedIsSteady(Exec(p, ConfirmTarget(job, f)), job, g);
  }

  // A latched merge that published nothing leaves a record, if any, that supersedes nothing.

  /** What there is of a record is about a target that is not there. */
  ghost predicate RecordIsMoot(model: CrashModel, d: Disk, plan: Plan) {
    && WellFormed(d) && Data(plan.target) !in ViewOf(d)
    && (forall u :: Record(u) in ViewOf(d) ==> u == plan.target && ViewOf(d)[Record(u)] == Sidecar(plan))
    && (Record(plan.target) in ViewOf(d) ==> Named(model, d, plan))
  }

  lemma RecoveryOfUnpublished(model: CrashModel, d: Disk, plan: Plan, g: Goal)
    requires Safe(model, d, g) && RecordIsMoot(model, d, plan) && g.widest <= MAX_SOURCES
    ensures RecoveryTrace(ViewOf(d)).Some? && SafeAlong(model, d, RecoveryTrace(ViewOf(d)).value, g)
  {
    SafeIsCoherent(model, d, g);
    RecoveryRuns(ViewOf(d));
    OneRecord(ViewOf(d));
    RecordsAreNamed(ViewOf(d));
    if Records(ViewOf(d)) != {} {
      var t := Listed(Records(ViewOf(d)))[0];
      assert t in Records(ViewOf(d)) && t == plan.target;
      AbandonPhase(model, d, plan, g);
    }
    SweepPhase(model, d, g);
  }

  lemma StaysNamed(model: CrashModel, e: Disk, job: Job, f: Fate, g: Goal)
    requires Safe(model, e, g) && Named(model, e, job.plan) && !f.recordBarrier && !f.recordTidied
    ensures Named(model, Exec(e, ConfirmRecord(job, f)), job.plan)
  {
    var gone := Unlink(Building(job.plan.target));
    assert ConfirmRecord(job, f) == Abandon(job, f);
    if f.abandonRemoves {
      NamedAfterHarmless(model, e, gone, job.plan, g);
      assert [gone] + [] == Abandon(job, f);
      ExecCons(e, gone, []);
    }
  }

  lemma NamedByBarrier(model: CrashModel, e: Disk, plan: Plan, g: Goal)
    requires Safe(model, e, g) && HoldsRecord(e.inodes, Visible(e), plan) && Data(plan.target) !in ViewOf(e)
    ensures Named(model, Step(e, Barrier), plan)
  {
    BarrierStep(model, e, g);
    StepSees(e, Barrier);
    VisibleInRange(e);
  }

  lemma EndsUnnamed(e: Disk, trace: seq<Instr>, t: nat)
    requires WellFormed(e)
    ensures Record(t) !in ViewOf(Exec(e, trace + [Unlink(Record(t))]))
  {
    ExecConcat(e, trace, [Unlink(Record(t))]);
    assert [Unlink(Record(t))] == [Unlink(Record(t))] + [];
    ExecCons(Exec(e, trace), Unlink(Record(t)), []);
    StepSees(Exec(e, trace), Unlink(Record(t)));
  }

  lemma RecordKept(model: CrashModel, e: Disk, job: Job, f: Fate, g: Goal)
    requires Safe(model, e, g) && Named(model, e, job.plan) && HoldsRecord(e.inodes, Visible(e), job.plan)
    requires Data(job.plan.target) !in ViewOf(e) && OutcomeOf(job, f).Latched? && NamesRecord(f) && !PublishesTarget(f)
    ensures Record(job.plan.target) in ViewOf(Exec(e, ConfirmRecord(job, f))) ==> Named(model, Exec(e, ConfirmRecord(job, f)), job.plan)
  {
    var t := job.plan.target;
    if !f.recordBarrier {
      if f.recordTidied { EndsUnnamed(e, Abandon(job, f), t); } else { StaysNamed(model, e, job, f, g); }
    } else if f.recordWithdrawn {
      assert ConfirmRecord(job, f) == [Barrier] + [Unlink(Record(t))];
      EndsUnnamed(e, [Barrier], t);
    } else {
      assert ConfirmRecord(job, f) == [Barrier] + [];
      ExecCons(e, Barrier, []);
      NamedByBarrier(model, e, job.plan, g);
    }
  }

  /** However a merge that latched without publishing went on after naming its record. */
  lemma UnpublishedLeaves(model: CrashModel, d: Disk, job: Job, f: Fate, g: Goal)
    requires Safe(model, d, g) && Quiet(model, d, job.plan.target) && FitsView(job, ViewOf(d)) && NoRecord(ViewOf(d))
    requires |job.plan.sources| <= g.widest && OutcomeOf(job, f).Latched? && !PublishesTarget(f)
    ensures RecordIsMoot(model, Exec(d, MergeTrace(job, f)), job.plan)
  {
    var e := Exec(d, NamingTrace(job));
    ReachesNaming(model, d, job, g);
    TraceOfNaming(job, f);
    ExecConcat(d, NamingTrace(job), ConfirmRecord(job, f));
    ExecSees(d, NamingTrace(job));
    NamingUnderway(ViewOf(d), job);
    UnpublishedSees(ViewOf(e), ViewOf(d), job, f);
    ExecSees(e, ConfirmRecord(job, f));
    RecordKept(model, e, job, f, g);
    var left := Exec(e, ConfirmRecord(job, f));
    VisibleIsLive(model, left);
    VisibleInRange(left);
  }

  /** A merge latched, wherever it was; the process dies and the store is reopened with nothing in
      between. Where a power cut may keep any subset of the pending changes, recovery is safe at every
      cut if and only if nothing was published or the barrier after the publication had held: recovery
      has no barrier of its own between seeing the target and the first removal. */
  lemma ReopeningNeedsADurableTarget(d: Disk, job: Job, f: Fate, g: Goal)
    requires Safe(AnySubset, d, g) && Quiet(AnySubset, d, job.plan.target) && FitsView(job, ViewOf(d))
    requires |job.plan.sources| <= g.widest <= MAX_SOURCES && job.merged != map[]
    requires OutcomeOf(job, f).Latched?
    ensures var left := Exec(d, MergeTrace(job, f));
            && RecoveryTrace(ViewOf(left)).Some?
            && (SafeAlong(AnySubset, left, RecoveryTrace(ViewOf(left)).value, g) <==> (PublishesTarget(f) ==> f.targetBarrier))
  {
    if PublishesTarget(f) {
      PublishedAndLatched(d, job, f, g);
    } else {
      QuietSeesNoRecord(d, job.plan.target);
      MergeIsSafe(AnySubset, d, job, f, g);
      SafeAtEveryCut(AnySubset, d, MergeTrace(job, f), g, |MergeTrace(job, f)|);
      assert MergeTrace(job, f)[..|MergeTrace(job, f)|] == MergeTrace(job, f);
      UnpublishedLeaves(AnySubset, d, job, f, g);
      RecoveryOfUnpublished(AnySubset, Exec(d, MergeTrace(job, f)), job.plan, g);
    }
  }

  lemma PublishedAndLatched(d: Disk, job: Job, f: Fate, g: Goal)
    requires Safe(AnySubset, d, g) && Quiet(AnySubset, d, job.plan.target) && FitsView(job, ViewOf(d))
    requires |job.plan.sources| <= g.widest <= MAX_SOURCES && job.merged != map[]
    requires PublishesTarget(f) && OutcomeOf(job, f).Latched?
    ensures var left := Exec(d, MergeTrace(job, f));
            && RecoveryTrace(ViewOf(left)).Some?
            && (SafeAlong(AnySubset, left, RecoveryTrace(ViewOf(left)).value, g) <==> f.targetBarrier)
  {
    var r := Step(Exec(d, NamingTrace(job)), Barrier);
    var p := Exec(d, UpToTheTarget(job, f));
    AtTheTarget(d, job, f, g);
    TraceToTheTarget(job, f);
    ExecConcat(d, UpToTheTarget(job, f), ConfirmTarget(job, f));
    var left := Exec(d, MergeTrace(job, f));
    if f.targetBarrier {
      ConfirmedLeavesSafe(p, job, f, g);
      SafeIsCoherent(AnySubset, left, g);
      RecoveryRuns(ViewOf(left));
      RecoveryIsSafe(AnySubset, left, g);
    } else {
      StoppedLoses(r, p, job, g);
    }
  }
}
