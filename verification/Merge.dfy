/**
  One merge, `merge_versions`: the trace of what it does to the directory for every way
  its steps can fail, and the proof that cutting that trace anywhere loses nothing.
*/
module Merge {
  import opened Basics
  import opened Disk
  import opened Recovery
  import opened CrashSafety

  /** What is merged: the plan, and the entries the build loop collected for it. */
  datatype Job = Job(plan: Plan, merged: Table)

  /** How the build ended. The unchecked removal of an earlier leftover comes first; when it fails the leftover
      stops the creation (`cleared` is false). A failed build may have left a partly filled file behind. */
  datatype Build = Built | NotCreated(cleared: bool, why: Error) | Partial(left: Content, why: Error)

  /** The outcome of each step that can fail, in the order they are attempted. */
  datatype Fate = Fate(
    build: Build,
    abandonRemoves: bool,      // the unchecked removal of the unfinished target
    contentSynced: bool,       // sync_mapped_region and sync_file on the target
    recordWritten: bool,       // the record's temporary was written
    recordSynced: bool,        // and synced
    tempDiscarded: bool,       // the unchecked removal of that temporary
    recordNamed: bool,         // the rename onto the record's name
    recordBarrier: bool,       // the barrier that makes the record durable
    recordTidied: bool,        // the unchecked removal of an undurable record
    published: bool,           // publish_new_file
    nameTaken: bool,           // whether it was refused because the name had been taken in between
    recordWithdrawn: bool,     // the removal of the record of a failed publication
    withdrawBarrier: bool,     // and the barrier that confirms it
    strayRemoved: bool,        // the second half of publish_new_file
    targetBarrier: bool,       // the barrier that makes the target's name durable
    markerMatches: bool,       // read_target_marker
    stuck: set<nat>,           // sources whose removal failed
    retireBarrier: bool,       // the barrier after the removals
    recordRemoved: bool,       // the removal of the record
    finalBarrier: bool)        // the barrier after it, which only warns

  function Abandon(job: Job, f: Fate): seq<Instr> {
    if f.abandonRemoves then [Unlink(Building(job.plan.target))] else []
  }

  function MergeTrace(job: Job, f: Fate): seq<Instr> {
    if f.build.NotCreated? && !f.build.cleared then BuildTarget(job, f)
    else [Unlink(Building(job.plan.target))] + BuildTarget(job, f)
  }

  function BuildTarget(job: Job, f: Fate): seq<Instr> {
    match f.build
    case NotCreated(_, _) => Abandon(job, f)
    case Partial(left, _) => [Create(Building(job.plan.target), left)] + Abandon(job, f)
    case Built =>
      [Create(Building(job.plan.target), Rows(job.merged, Some(job.plan.id)))] + SyncTarget(job, f)
  }

  function SyncTarget(job: Job, f: Fate): seq<Instr> {
    if f.contentSynced then [Fsync(Building(job.plan.target))] + WriteRecord(job, f)
    else Abandon(job, f)
  }

  function DiscardTemp(job: Job, f: Fate): seq<Instr> {
    (if f.tempDiscarded then [Unlink(RecordTmp(job.plan.target))] else []) + Abandon(job, f)
  }

  function WriteRecord(job: Job, f: Fate): seq<Instr> {
    if f.recordWritten
    then [Create(RecordTmp(job.plan.target), Sidecar(job.plan))] + SyncRecord(job, f)
    else [Create(RecordTmp(job.plan.target), Scrap)] + DiscardTemp(job, f)
  }

  function SyncRecord(job: Job, f: Fate): seq<Instr> {
    if f.recordSynced then [Fsync(RecordTmp(job.plan.target))] + NameRecord(job, f) else DiscardTemp(job, f)
  }

  function NameRecord(job: Job, f: Fate): seq<Instr> {
    if f.recordNamed
    then [Rename(RecordTmp(job.plan.target), Record(job.plan.target))] + ConfirmRecord(job, f)
    else DiscardTemp(job, f)
  }

  function ConfirmRecord(job: Job, f: Fate): seq<Instr> {
    if f.recordBarrier then [Barrier] + Publish(job, f)
    else Abandon(job, f) + (if f.recordTidied then [Unlink(Record(job.plan.target))] else [])
  }

  function Publish(job: Job, f: Fate): seq<Instr> {
    if f.published
    then [Link(Building(job.plan.target), Data(job.plan.target))] + ClearStray(job, f)
    else Withdraw(job, f)
  }

  function Withdraw(job: Job, f: Fate): seq<Instr> {
    if !f.recordWithdrawn then []
    else [Unlink(Record(job.plan.target))] + (if f.withdrawBarrier then [Barrier] + Abandon(job, f) else [])
  }

  function ClearStray(job: Job, f: Fate): seq<Instr> {
    (if f.strayRemoved then [Unlink(Building(job.plan.target))] else []) + ConfirmTarget(job, f)
  }

  function ConfirmTarget(job: Job, f: Fate): seq<Instr> {
    if !f.targetBarrier then [] else [Barrier] + RetireSources(job, f)
  }

  function RetireSources(job: Job, f: Fate): seq<Instr> {
    if !f.markerMatches then [] else Retire(job.plan.sources, f.stuck) + ConfirmRetired(job, f)
  }

  predicate AllRetired(job: Job, f: Fate) {
    f.retireBarrier && forall s :: s in job.plan.sources ==> s !in f.stuck
  }

  function ConfirmRetired(job: Job, f: Fate): seq<Instr> {
    if !f.retireBarrier then [] else [Barrier] + (if AllRetired(job, f) then RemoveRecord(job, f) else [])
  }

  function RemoveRecord(job: Job, f: Fate): seq<Instr> {
    if !f.recordRemoved then []
    else [Unlink(Record(job.plan.target))] + (if f.finalBarrier then [Barrier] else [])
  }

  /** What comes of `merge_versions`. `Latched` sets `cleanup_pending_`; `Thrown` is an exception that left it, with the
      error its caller makes of that. */
  datatype Outcome = Merged | Refused(why: Error) | Latched(why: Error) | Thrown(why: Error)

  /** What `publish_new_file` answers when it refuses. */
  function Unpublished(f: Fate): Error { if f.nameTaken then IdentityCollision else RenameFailed }

  function OutcomeOf(job: Job, f: Fate): Outcome {
    if f.build != Built then Refused(f.build.why)
    else if !f.contentSynced then Refused(SyncFailed)
    else if !f.recordWritten then Refused(MetadataWriteFailed)
    else if !f.recordSynced then Refused(SyncFailed)
    else if !f.recordNamed then Refused(RenameFailed)
    else if !f.recordBarrier then Latched(RecoveryRequired)
    else if !f.published then
      (if f.recordWithdrawn && f.withdrawBarrier then Refused(Unpublished(f)) else Latched(RecoveryRequired))
    else if !f.targetBarrier then Latched(RecoveryRequired)
    else if !f.markerMatches then Latched(RecoveryFailed)
    else if !AllRetired(job, f) || !f.recordRemoved then Latched(RecoveryRequired)
    else Merged
  }

  // ------------------------------------------------------------------
  // Where a merge may start
  // ------------------------------------------------------------------

  /** Nothing in flight in any survivor the merge may land on. */
  ghost predicate Quiet(model: CrashModel, d: Disk, t: nat) {
    forall dir :: Live(model, d, dir) ==> NothingInFlight(dir, t)
  }

  ghost predicate NothingInFlight(dir: Dir, t: nat) {
    Data(t) !in dir && forall u :: Record(u) !in dir
  }

  /** The job is what `merge_groups` hands over: a fresh identity, and every entry of the sources. */
  ghost predicate FitsView(job: Job, view: View) {
    && Coherent(job.plan, job.plan.target)
    && (forall s :: s in job.plan.sources ==> s in Tables(view))
    && job.merged == MergedOf(Tables(view), job.plan.sources)
    && Data(job.plan.target) !in view
  }

  /** The view a merge ran in says of its job what the one it started in did. */
  lemma FitsAfterHarmless(job: Job, d: Disk, e: Disk)
    requires WellFormed(d) && WellFormed(e)
    requires FitsView(job, ViewOf(d))
    requires SameNames(Visible(d), Visible(e)) && Grows(d.inodes, e.inodes)
    ensures FitsView(job, ViewOf(e))
  {
    VisibleInRange(d);
    VisibleInRange(e);
    SameTables(ViewOf(d), ViewOf(e));
  }

  lemma QuietAfterHarmless(model: CrashModel, d: Disk, e: Disk, t: nat)
    requires Quiet(model, d, t) && LiveAsBefore(model, d, e)
    ensures Quiet(model, e, t)
  {
    forall dir | Live(model, e, dir) ensures NothingInFlight(dir, t) {
      var prev :| Live(model, d, prev) && SameNames(prev, dir);
      assert NothingInFlight(prev, t);
      forall u ensures Record(u) !in dir { assert Record(u) !in prev; }
    }
  }

  /** A harmless step of a merge that has named nothing yet. */
  lemma QuietStep(model: CrashModel, d: Disk, i: Instr, job: Job, g: Goal)
    requires Safe(model, d, g) && Quiet(model, d, job.plan.target) && FitsView(job, ViewOf(d)) && Harmless(i)
    ensures Safe(model, Step(d, i), g)
    ensures Quiet(model, Step(d, i), job.plan.target)
    ensures FitsView(job, ViewOf(Step(d, i)))
    ensures ViewOf(Step(d, i)) == ViewStep(ViewOf(d), i)
  {
    HarmlessStep(model, d, i, g);
    StepSees(d, i);
    QuietAfterHarmless(model, d, Step(d, i), job.plan.target);
    FitsAfterHarmless(job, d, Step(d, i));
  }

  lemma {:induction false} SafeAlongHarmless(model: CrashModel, d: Disk, trace: seq<Instr>, g: Goal)
    requires Safe(model, d, g)
    requires forall i :: 0 <= i < |trace| ==> Harmless(trace[i])
    ensures SafeAlong(model, d, trace, g)
    decreases |trace|
  {
    if trace != [] {
      HarmlessStep(model, d, trace[0], g);
      SafeAlongHarmless(model, Step(d, trace[0]), trace[1..], g);
    }
  }

  lemma {:induction false} SafeAlongConcat(model: CrashModel, d: Disk, a: seq<Instr>, b: seq<Instr>, g: Goal)
    requires SafeAlong(model, d, a, g)
    requires SafeAlong(model, Exec(d, a), b, g)
    ensures SafeAlong(model, d, a + b, g)
    decreases |a|
  {
    if a == [] {
      assert a + b == b;
    } else {
      assert (a + b)[1..] == a[1..] + b;
      StepSees(d, a[0]);
      SafeAlongConcat(model, Step(d, a[0]), a[1..], b, g);
    }
  }

  // ------------------------------------------------------------------
  // Phase by phase, last first
  // ------------------------------------------------------------------

  /** Every live survivor holds the record, and its target. */
  ghost predicate TargetNamed(model: CrashModel, d: Disk, plan: Plan) {
    WellFormed(d) && forall dir :: Live(model, d, dir) ==> HoldsBoth(d.inodes, dir, plan)
  }

  ghost predicate HoldsRecord(inodes: seq<Inode>, dir: Dir, plan: Plan) {
    && InRange(inodes, dir)
    && Record(plan.target) in dir
    && inodes[dir[Record(plan.target)]].content == Sidecar(plan)
  }

  ghost predicate HoldsBoth(inodes: seq<Inode>, dir: Dir, plan: Plan) {
    HoldsRecord(inodes, dir, plan) && Data(plan.target) in dir
  }

  /** Dropping a record that supersedes nothing still there. */
  lemma DropRecordStep(model: CrashModel, d: Disk, plan: Plan, g: Goal)
    requires Safe(model, d, g)
    requires forall dir :: Live(model, d, dir) && Record(plan.target) in dir ==>
               HoldsRecord(d.inodes, dir, plan)
               && (Data(plan.target) !in dir || forall s :: s in plan.sources ==> Data(s) !in dir)
    ensures Safe(model, Step(d, Unlink(Record(plan.target))), g)
  {
    var t := plan.target;
    if Record(t) in Visible(d) {
      forall dir | Live(model, d, dir) ensures Sound(d.inodes, ApplyOp(dir, Drop(Record(t))), g) {
        LiveIsPossible(model, d, dir);
        ApplyOpSees(d.inodes, dir, Drop(Record(t)));
        DroppingTheRecord(ViewIn(d.inodes, dir), t);
      }
      SafePend(model, d, Drop(Record(t)), g);
    }
  }

  lemma RetiringKeepsSound(inodes: seq<Inode>, dir: Dir, plan: Plan, s: nat, g: Goal)
    requires Sound(inodes, dir, g) && HoldsBoth(inodes, dir, plan) && s in plan.sources
    ensures s != plan.target
    ensures Sound(inodes, ApplyOp(dir, Drop(Data(s))), g)
  {
    ApplyOpSees(inodes, dir, Drop(Data(s)));
    assert SupersededBy(ViewIn(inodes, dir), plan.target, s);
    RetiringASource(ViewIn(inodes, dir), plan.target, s);
  }

  lemma RetireStep(model: CrashModel, d: Disk, plan: Plan, s: nat, g: Goal)
    requires Safe(model, d, g) && TargetNamed(model, d, plan)
    requires s in plan.sources
    ensures Safe(model, Step(d, Unlink(Data(s))), g)
    ensures TargetNamed(model, Step(d, Unlink(Data(s))), plan)
  {
    var op := Drop(Data(s));
    if Data(s) in Visible(d) {
      forall dir | Live(model, d, dir) ensures s != plan.target && Sound(d.inodes, ApplyOp(dir, op), g) {
        LiveIsPossible(model, d, dir);
        RetiringKeepsSound(d.inodes, dir, plan, s, g);
      }
      VisibleIsLive(model, d);
      SafePend(model, d, op, g);
      StillNamed(model, d, plan, s);
    }
  }

  lemma StillNamed(model: CrashModel, d: Disk, plan: Plan, s: nat)
    requires TargetNamed(model, d, plan) && s != plan.target
    ensures TargetNamed(model, Pend(d, Drop(Data(s))), plan)
  {
    PendSees(d, Drop(Data(s)));
    forall dir | Live(model, Pend(d, Drop(Data(s))), dir) ensures HoldsBoth(d.inodes, dir, plan) {
      var prev := LiveAfter(model, d, Drop(Data(s)), dir);
      assert HoldsBoth(d.inodes, prev, plan);
    }
  }

  lemma {:induction false} RetirePhase(model: CrashModel, d: Disk, plan: Plan, sources: seq<nat>, stuck: set<nat>, g: Goal)
    requires Safe(model, d, g) && TargetNamed(model, d, plan)
    requires forall s :: s in sources ==> s in plan.sources
    ensures SafeAlong(model, d, Retire(sources, stuck), g)
    ensures Safe(model, Exec(d, Retire(sources, stuck)), g)
    ensures TargetNamed(model, Exec(d, Retire(sources, stuck)), plan)
    decreases |sources|
  {
    if sources != [] {
      var s := sources[0];
      var rest := Retire(sources[1..], stuck);
      if s in stuck {
        assert [] + rest == rest;
        RetirePhase(model, d, plan, sources[1..], stuck, g);
      } else {
        RetireStep(model, d, plan, s, g);
        RetirePhase(model, Step(d, Unlink(Data(s))), plan, sources[1..], stuck, g);
        SafeAlongCons(model, d, Unlink(Data(s)), rest, g);
        ExecCons(d, Unlink(Data(s)), rest);
      }
    }
  }

  lemma ExecCons(d: Disk, i: Instr, rest: seq<Instr>)
    requires WellFormed(d)
    ensures WellFormed(Step(d, i))
    ensures Exec(d, [i] + rest) == Exec(Step(d, i), rest)
  {
    StepSees(d, i);
    assert ([i] + rest)[1..] == rest;
  }

  lemma {:induction false} RetireSees(v: View, sources: seq<nat>, stuck: set<nat>)
    ensures ViewExec(v, Retire(sources, stuck)) == v - (set s | s in sources && s !in stuck :: Data(s))
    decreases |sources|
  {
    var gone := set s | s in sources && s !in stuck :: Data(s);
    if sources == [] {
      assert v - gone == v;
    } else {
      var s := sources[0];
      var rest := sources[1..];
      var goneRest := set x | x in rest && x !in stuck :: Data(x);
      assert sources == [s] + rest;
      if s in stuck {
        assert [] + Retire(rest, stuck) == Retire(rest, stuck);
        RetireSees(v, rest, stuck);
        assert gone == goneRest;
      } else {
        RetireSees(v - {Data(s)}, rest, stuck);
        assert gone == goneRest + {Data(s)};
        assert ([Unlink(Data(s))] + Retire(rest, stuck))[1..] == Retire(rest, stuck);
        assert v - {Data(s)} - goneRest == v - gone;
      }
    }
  }

  /** From a durable target on: the retirement of the sources and of the record. */
  lemma RetireSourcesPhase(model: CrashModel, d: Disk, job: Job, f: Fate, g: Goal)
    requires Safe(model, d, g) && TargetNamed(model, d, job.plan)
    ensures SafeAlong(model, d, RetireSources(job, f), g)
  {
    if f.markerMatches {
      var plan := job.plan;
      var retire := Retire(plan.sources, f.stuck);
      RetirePhase(model, d, plan, plan.sources, f.stuck, g);
      var e := Exec(d, retire);
      if f.retireBarrier {
        var b := Step(e, Barrier);
        VisibleIsLive(model, e);
        BarrierStep(model, e, g);
        StepSees(e, Barrier);
        if AllRetired(job, f) {
          ExecSees(d, retire);
          RetireSees(ViewOf(d), plan.sources, f.stuck);
          VisibleInRange(e);
          forall s | s in plan.sources ensures Data(s) !in Visible(e) {
            assert Data(s) in (set x | x in plan.sources && x !in f.stuck :: Data(x));
            assert Data(s) !in ViewOf(e);
          }
          RemoveRecordPhase(model, b, job, f, g);
          SafeAlongCons(model, e, Barrier, RemoveRecord(job, f), g);
        } else {
          SafeAlongCons(model, e, Barrier, [], g);
        }
      }
      SafeAlongConcat(model, d, retire, ConfirmRetired(job, f), g);
    }
  }

  lemma RemoveRecordPhase(model: CrashModel, d: Disk, job: Job, f: Fate, g: Goal)
    requires Safe(model, d, g)
    requires forall dir :: Live(model, d, dir) ==>
               HoldsRecord(d.inodes, dir, job.plan) && forall s :: s in job.plan.sources ==> Data(s) !in dir
    ensures SafeAlong(model, d, RemoveRecord(job, f), g)
  {
    if f.recordRemoved {
      var gone := Unlink(Record(job.plan.target));
      DropRecordStep(model, d, job.plan, g);
      StepSees(d, gone);
      if f.finalBarrier {
        BarrierStep(model, Step(d, gone), g);
        SafeAlongCons(model, Step(d, gone), Barrier, [], g);
        assert [gone] + [Barrier] == [gone] + ([Barrier] + []);
        assert [Barrier] + [] == [Barrier];
        SafeAlongCons(model, d, gone, [Barrier], g);
      } else {
        SafeAlongCons(model, d, gone, [], g);
      }
    }
  }

  lemma ConfirmTargetPhase(model: CrashModel, d: Disk, job: Job, f: Fate, g: Goal)
    requires Safe(model, d, g) && HoldsBoth(d.inodes, Visible(d), job.plan)
    ensures SafeAlong(model, d, ConfirmTarget(job, f), g)
  {
    if f.targetBarrier {
      BarrierStep(model, d, g);
      StepSees(d, Barrier);
      RetireSourcesPhase(model, Step(d, Barrier), job, f, g);
      SafeAlongCons(model, d, Barrier, RetireSources(job, f), g);
    }
  }

  lemma ClearStrayPhase(model: CrashModel, d: Disk, job: Job, f: Fate, g: Goal)
    requires Safe(model, d, g) && HoldsBoth(d.inodes, Visible(d), job.plan)
    ensures SafeAlong(model, d, ClearStray(job, f), g)
  {
    var rest := ConfirmTarget(job, f);
    if f.strayRemoved {
      var i := Unlink(Building(job.plan.target));
      HarmlessStep(model, d, i, g);
      VisibleInRange(Step(d, i));
      ConfirmTargetPhase(model, Step(d, i), job, f, g);
      SafeAlongCons(model, d, i, rest, g);
    } else {
      ConfirmTargetPhase(model, d, job, f, g);
      assert [] + rest == rest;
    }
  }

  // ------------------------------------------------------------------
  // Before the target exists
  // ------------------------------------------------------------------

  /** A visible file with these contents, on stable storage or not yet. */
  ghost predicate Has(d: Disk, n: Name, content: Content, synced: bool) {
    var here := Visible(d);
    n in here && here[n] < |d.inodes| && d.inodes[here[n]].content == content
    && (synced ==> d.inodes[here[n]].synced)
  }

  lemma CreateHas(d: Disk, n: Name, content: Content)
    requires WellFormed(d)
    ensures Has(Step(d, Create(n, content)), n, content, false)
  {
    VisibleAfter(Disk(d.inodes + [Inode(content, false)], d.durable, d.pending), Put(n, |d.inodes|));
  }

  lemma FsyncHas(d: Disk, n: Name, content: Content)
    requires WellFormed(d) && Has(d, n, content, false)
    ensures Has(Step(d, Fsync(n)), n, content, true)
  {
  }

  lemma HarmlessKeeps(d: Disk, i: Instr, n: Name, content: Content, synced: bool)
    requires WellFormed(d) && Has(d, n, content, synced)
    requires i.Fsync? || (i.Create? && i.name != n) || (i.Rename? && i.from != n && i.to != n) || i.Barrier?
    ensures Has(Step(d, i), n, content, synced)
  {
    VisibleInRange(d);
    match i
    case Create(name, c) =>
      VisibleAfter(Disk(d.inodes + [Inode(c, false)], d.durable, d.pending), Put(name, |d.inodes|));
    case Rename(from, to) =>
      if from in Visible(d) { VisibleAfter(d, Shift(from, to, Visible(d)[from])); }
    case Fsync(_) =>
      assert Visible(Step(d, i)) == Visible(d);
    case Barrier =>
      assert Visible(Step(d, i)) == Visible(d);
  }

  function Target(job: Job): Content { Rows(job.merged, Some(job.plan.id)) }

  /** The record is durable, the target built and synced, and nothing else in flight. */
  ghost predicate Recorded(model: CrashModel, d: Disk, job: Job) {
    && WellFormed(d)
    && (forall dir :: Live(model, d, dir) ==> dir == Visible(d))
    && HoldsRecord(d.inodes, Visible(d), job.plan)
    && Has(d, Building(job.plan.target), Target(job), true)
    && FitsView(job, ViewOf(d))
  }

  lemma PublishStep(model: CrashModel, d: Disk, job: Job, g: Goal)
    requires Safe(model, d, g) && Recorded(model, d, job)
    ensures var e := Step(d, Link(Building(job.plan.target), Data(job.plan.target)));
            Safe(model, e, g) && HoldsBoth(e.inodes, Visible(e), job.plan)
  {
    var t := job.plan.target;
    var here := Visible(d);
    var op := Put(Data(t), here[Building(t)]);
    VisibleIsLive(model, d);
    LiveIsPossible(model, d, here);
    ApplyOpSees(d.inodes, here, op);
    PublishingTheTarget(ViewOf(d), job.plan, g.entries);
    assert Sound(d.inodes, ApplyOp(here, op), g);
    SafePend(model, d, op, g);
    VisibleAfter(d, op);
  }

  lemma PublishPhase(model: CrashModel, d: Disk, job: Job, f: Fate, g: Goal)
    requires Safe(model, d, g) && Recorded(model, d, job)
    ensures SafeAlong(model, d, Publish(job, f), g)
  {
    var t := job.plan.target;
    if f.published {
      var i := Link(Building(t), Data(t));
      PublishStep(model, d, job, g);
      ClearStrayPhase(model, Step(d, i), job, f, g);
      SafeAlongCons(model, d, i, ClearStray(job, f), g);
    } else if f.recordWithdrawn {
      var i := Unlink(Record(t));
      VisibleInRange(d);
      DropRecordStep(model, d, job.plan, g);
      StepSees(d, i);
      var e := Step(d, i);
      if f.withdrawBarrier {
        BarrierStep(model, e, g);
        SafeAlongHarmless(model, Step(e, Barrier), Abandon(job, f), g);
        SafeAlongCons(model, e, Barrier, Abandon(job, f), g);
        SafeAlongCons(model, d, i, [Barrier] + Abandon(job, f), g);
      } else {
        SafeAlongCons(model, d, i, [], g);
      }
    }
  }

  /** The record may or may not have its name in a survivor; the target has none anywhere. */
  ghost predicate Named(model: CrashModel, d: Disk, plan: Plan) {
    WellFormed(d) && forall dir :: Live(model, d, dir) ==> MayHoldRecord(d.inodes, dir, plan)
  }

  ghost predicate MayHoldRecord(inodes: seq<Inode>, dir: Dir, plan: Plan) {
    && Data(plan.target) !in dir
    && (Record(plan.target) in dir ==> HoldsRecord(inodes, dir, plan))
  }

  lemma NamedAfterHarmless(model: CrashModel, d: Disk, i: Instr, plan: Plan, g: Goal)
    requires Safe(model, d, g) && Named(model, d, plan) && Harmless(i)
    ensures Safe(model, Step(d, i), g) && Named(model, Step(d, i), plan)
  {
    HarmlessStep(model, d, i, g);
    var e := Step(d, i);
    forall dir | Live(model, e, dir) ensures MayHoldRecord(e.inodes, dir, plan) {
      var prev :| Live(model, d, prev) && SameNames(prev, dir);
      assert MayHoldRecord(d.inodes, prev, plan);
      LiveIsPossible(model, e, dir);
      assert Record(plan.target) in dir ==> dir[Record(plan.target)] == prev[Record(plan.target)];
    }
  }

  lemma ConfirmRecordPhase(model: CrashModel, d: Disk, job: Job, f: Fate, g: Goal)
    requires Safe(model, d, g) && Named(model, d, job.plan)
    requires HoldsRecord(d.inodes, Visible(d), job.plan)
    requires Has(d, Building(job.plan.target), Target(job), true)
    requires FitsView(job, ViewOf(d))
    ensures SafeAlong(model, d, ConfirmRecord(job, f), g)
  {
    if f.recordBarrier {
      BarrierStep(model, d, g);
      StepSees(d, Barrier);
      HarmlessKeeps(d, Barrier, Building(job.plan.target), Target(job), true);
      PublishPhase(model, Step(d, Barrier), job, f, g);
      SafeAlongCons(model, d, Barrier, Publish(job, f), g);
    } else {
      var tidy := if f.recordTidied then [Unlink(Record(job.plan.target))] else [];
      SafeAlongHarmless(model, d, Abandon(job, f), g);
      var e := Exec(d, Abandon(job, f));
      if f.abandonRemoves {
        NamedAfterHarmless(model, d, Unlink(Building(job.plan.target)), job.plan, g);
        ExecCons(d, Unlink(Building(job.plan.target)), []);
        assert [Unlink(Building(job.plan.target))] + [] == Abandon(job, f);
      }
      if f.recordTidied {
        DropRecordStep(model, e, job.plan, g);
        SafeAlongCons(model, e, Unlink(Record(job.plan.target)), [], g);
      }
      SafeAlongConcat(model, d, Abandon(job, f), tidy, g);
    }
  }

  lemma NamingKeepsSound(inodes: seq<Inode>, dir: Dir, plan: Plan, ino: nat, g: Goal)
    requires Sound(inodes, dir, g) && NothingInFlight(dir, plan.target) && Coherent(plan, plan.target)
    requires |plan.sources| <= g.widest
    requires ino < |inodes| && inodes[ino] == Inode(Sidecar(plan), true)
    ensures Sound(inodes, ApplyOp(dir, Shift(RecordTmp(plan.target), Record(plan.target), ino)), g)
  {
    ApplyOpSees(inodes, dir, Shift(RecordTmp(plan.target), Record(plan.target), ino));
    RenamingTheRecord(ViewIn(inodes, dir), plan, g.entries);
  }

  /** The record under its name instead of its temporary one. */
  lemma RenamingTheRecord(view: View, plan: Plan, m: Table)
    requires Represents(view, m) && Coherent(plan, plan.target)
    requires Data(plan.target) !in view && forall u :: Record(u) !in view
    ensures var after := (view - {RecordTmp(plan.target)})[Record(plan.target) := Sidecar(plan)];
            Represents(after, m) && forall u :: Record(u) in after ==> u == plan.target
  {
    var less := view - {RecordTmp(plan.target)};
    SameMeaningSameEffect(view, less);
    RecordsAreNamed(less);
    NamingTheRecord(less, plan, m);
  }

  lemma RenameStep(model: CrashModel, d: Disk, job: Job, g: Goal)
    requires Safe(model, d, g) && Quiet(model, d, job.plan.target) && FitsView(job, ViewOf(d))
    requires Has(d, RecordTmp(job.plan.target), Sidecar(job.plan), true) && |job.plan.sources| <= g.widest
    ensures var e := Step(d, Rename(RecordTmp(job.plan.target), Record(job.plan.target)));
            Safe(model, e, g) && Named(model, e, job.plan) && HoldsRecord(e.inodes, Visible(e), job.plan)
            && FitsView(job, ViewOf(e))
  {
    var t := job.plan.target;
    var ino := Visible(d)[RecordTmp(t)];
    var op := Shift(RecordTmp(t), Record(t), ino);
    forall dir | Live(model, d, dir) ensures Sound(d.inodes, ApplyOp(dir, op), g) {
      LiveIsPossible(model, d, dir);
      assert NothingInFlight(dir, t);
      NamingKeepsSound(d.inodes, dir, job.plan, ino, g);
    }
    SafePend(model, d, op, g);
    NamedAfterRename(model, d, job, op, g);
    RenameSees(d, job, op);
  }

  lemma NamedAfterRename(model: CrashModel, d: Disk, job: Job, op: Op, g: Goal)
    requires Safe(model, d, g) && Quiet(model, d, job.plan.target)
    requires op.Shift? && op.from == RecordTmp(job.plan.target) && op.to == Record(job.plan.target)
    requires op.ino < |d.inodes| && d.inodes[op.ino].content == Sidecar(job.plan)
    ensures Named(model, Pend(d, op), job.plan)
  {
    PendSees(d, op);
    forall dir | Live(model, Pend(d, op), dir) ensures MayHoldRecord(d.inodes, dir, job.plan) {
      var prev := LiveAfter(model, d, op, dir);
      assert NothingInFlight(prev, job.plan.target);
      LiveIsPossible(model, d, prev);
    }
  }

  lemma RenameSees(d: Disk, job: Job, op: Op)
    requires WellFormed(d) && FitsView(job, ViewOf(d))
    requires op.Shift? && op.from == RecordTmp(job.plan.target) && op.to == Record(job.plan.target)
    requires op.ino < |d.inodes| && d.inodes[op.ino].content == Sidecar(job.plan)
    ensures WellFormed(Pend(d, op))
    ensures HoldsRecord(d.inodes, Visible(Pend(d, op)), job.plan)
    ensures FitsView(job, ViewOf(Pend(d, op)))
  {
    PendSees(d, op);
    VisibleAfter(d, op);
    VisibleInRange(Pend(d, op));
    SameTables(ViewOf(d), ViewOf(Pend(d, op)));
  }

  lemma DiscardTempPhase(model: CrashModel, d: Disk, job: Job, f: Fate, g: Goal)
    requires Safe(model, d, g)
    ensures SafeAlong(model, d, DiscardTemp(job, f), g)
  {
    SafeAlongHarmless(model, d, DiscardTemp(job, f), g);
  }

  lemma NameRecordPhase(model: CrashModel, d: Disk, job: Job, f: Fate, g: Goal)
    requires Safe(model, d, g) && Quiet(model, d, job.plan.target) && FitsView(job, ViewOf(d))
    requires Has(d, Building(job.plan.target), Target(job), true)
    requires Has(d, RecordTmp(job.plan.target), Sidecar(job.plan), true) && |job.plan.sources| <= g.widest
    ensures SafeAlong(model, d, NameRecord(job, f), g)
  {
    var t := job.plan.target;
    if f.recordNamed {
      var i := Rename(RecordTmp(t), Record(t));
      RenameStep(model, d, job, g);
      HarmlessKeeps(d, i, Building(t), Target(job), true);
      ConfirmRecordPhase(model, Step(d, i), job, f, g);
      SafeAlongCons(model, d, i, ConfirmRecord(job, f), g);
    } else {
      DiscardTempPhase(model, d, job, f, g);
    }
  }

  /** Creating a file of the protocol and syncing it, while nothing is in flight. */
  lemma MakeFile(model: CrashModel, d: Disk, n: Name, content: Content, job: Job, g: Goal)
    requires Safe(model, d, g) && Quiet(model, d, job.plan.target) && FitsView(job, ViewOf(d))
    requires Meaningless(n)
    ensures var e := Step(d, Create(n, content));
            Safe(model, e, g) &&
            var made := Step(e, Fsync(n));
            Safe(model, made, g) && Quiet(model, made, job.plan.target) && FitsView(job, ViewOf(made))
            && Has(made, n, content, true)
  {
    QuietStep(model, d, Create(n, content), job, g);
    CreateHas(d, n, content);
    var e := Step(d, Create(n, content));
    QuietStep(model, e, Fsync(n), job, g);
    FsyncHas(e, n, content);
  }

  lemma MakeRecord(model: CrashModel, d: Disk, job: Job, g: Goal)
    requires Safe(model, d, g) && Quiet(model, d, job.plan.target) && FitsView(job, ViewOf(d))
    requires Has(d, Building(job.plan.target), Target(job), true)
    ensures var n := RecordTmp(job.plan.target);
            var e := Step(d, Create(n, Sidecar(job.plan)));
            Safe(model, e, g) &&
            var made := Step(e, Fsync(n));
            Safe(model, made, g) && Quiet(model, made, job.plan.target) && FitsView(job, ViewOf(made))
            && Has(made, n, Sidecar(job.plan), true)
            && Has(made, Building(job.plan.target), Target(job), true)
  {
    var n := RecordTmp(job.plan.target);
    MakeFile(model, d, n, Sidecar(job.plan), job, g);
    HarmlessKeeps(d, Create(n, Sidecar(job.plan)), Building(job.plan.target), Target(job), true);
    HarmlessKeeps(Step(d, Create(n, Sidecar(job.plan))), Fsync(n), Building(job.plan.target), Target(job), true);
  }

  lemma SyncRecordPhase(model: CrashModel, e: Disk, job: Job, f: Fate, g: Goal)
    requires Safe(model, e, g)
    requires var made := Step(e, Fsync(RecordTmp(job.plan.target)));
             Safe(model, made, g) && Quiet(model, made, job.plan.target) && FitsView(job, ViewOf(made))
             && Has(made, RecordTmp(job.plan.target), Sidecar(job.plan), true)
             && Has(made, Building(job.plan.target), Target(job), true)
    requires |job.plan.sources| <= g.widest
    ensures SafeAlong(model, e, SyncRecord(job, f), g)
  {
    if f.recordSynced {
      NameRecordPhase(model, Step(e, Fsync(RecordTmp(job.plan.target))), job, f, g);
      SafeAlongCons(model, e, Fsync(RecordTmp(job.plan.target)), NameRecord(job, f), g);
    } else {
      DiscardTempPhase(model, e, job, f, g);
    }
  }

  lemma WriteRecordPhase(model: CrashModel, d: Disk, job: Job, f: Fate, g: Goal)
    requires Safe(model, d, g) && Quiet(model, d, job.plan.target) && FitsView(job, ViewOf(d))
    requires Has(d, Building(job.plan.target), Target(job), true) && |job.plan.sources| <= g.widest
    ensures SafeAlong(model, d, WriteRecord(job, f), g)
  {
    if f.recordWritten {
      var create := Create(RecordTmp(job.plan.target), Sidecar(job.plan));
      MakeRecord(model, d, job, g);
      SyncRecordPhase(model, Step(d, create), job, f, g);
      SafeAlongCons(model, d, create, SyncRecord(job, f), g);
    } else {
      var create := Create(RecordTmp(job.plan.target), Scrap);
      HarmlessStep(model, d, create, g);
      DiscardTempPhase(model, Step(d, create), job, f, g);
      SafeAlongCons(model, d, create, DiscardTemp(job, f), g);
    }
  }

  /** Crash conservation, the merge: whatever fails and wherever it is cut, every directory
      a power cut may leave holds exactly the entries that were there before. */
  lemma MergeIsSafe(model: CrashModel, d: Disk, job: Job, f: Fate, g: Goal)
    requires Safe(model, d, g) && Quiet(model, d, job.plan.target) && FitsView(job, ViewOf(d))
    requires |job.plan.sources| <= g.widest
    ensures SafeAlong(model, d, MergeTrace(job, f), g)
  {
    var clear := Unlink(Building(job.plan.target));
    QuietStep(model, d, clear, job, g);
    BuildPhase(model, Step(d, clear), job, f, g);
    SafeAlongCons(model, d, clear, BuildTarget(job, f), g);
    BuildPhase(model, d, job, f, g);
  }

  lemma BuildPhase(model: CrashModel, d: Disk, job: Job, f: Fate, g: Goal)
    requires Safe(model, d, g) && Quiet(model, d, job.plan.target) && FitsView(job, ViewOf(d))
    requires |job.plan.sources| <= g.widest
    ensures SafeAlong(model, d, BuildTarget(job, f), g)
  {
    var building := Building(job.plan.target);
    if f.build == Built && f.contentSynced {
      var create := Create(building, Target(job));
      MakeFile(model, d, building, Target(job), job, g);
      var made := Step(d, create);
      WriteRecordPhase(model, Step(made, Fsync(building)), job, f, g);
      SafeAlongCons(model, made, Fsync(building), WriteRecord(job, f), g);
      SafeAlongCons(model, d, create, SyncTarget(job, f), g);
    } else {
      SafeAlongHarmless(model, d, BuildTarget(job, f), g);
    }
  }
}
