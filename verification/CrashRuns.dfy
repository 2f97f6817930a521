/**
  Whole crash histories: a merge cut anywhere, then any number of recoveries each cut
  anywhere, then one that completes.
*/
module CrashRuns {
  import opened Basics
  import opened Disk
  import opened Recovery
  import opened CrashSafety
  import opened Merge
  import opened Settling

  /** Every survivor recovery may work on agrees with what it sees about the record in flight
      and about whether its target is there. */
  ghost predicate Steady(model: CrashModel, d: Disk) {
    WellFormed(d) && forall t, dir :: Record(t) in Visible(d) && Live(model, d, dir) ==> AgreesOn(d, dir, t)
  }

  ghost predicate AgreesOn(d: Disk, dir: Dir, t: nat)
    requires WellFormed(d)
  {
    && InRange(d.inodes, dir) && InRange(d.inodes, Visible(d))
    && (Record(t) in Visible(d) ==>
          && Record(t) in dir
          && d.inodes[dir[Record(t)]].content == d.inodes[Visible(d)[Record(t)]].content)
    && (Data(t) in dir <==> Data(t) in Visible(d))
  }

  lemma SafeIsCoherent(model: CrashModel, d: Disk, g: Goal)
    requires Safe(model, d, g)
    ensures Sound(d.inodes, Visible(d), g)
    ensures RecordsOk(ViewOf(d))
  {
    VisibleIsPossible(model, d.durable, d.pending);
  }

  /** Abandoning an unpublished merge. */
  lemma AbandonPhase(model: CrashModel, d: Disk, plan: Plan, g: Goal)
    requires Safe(model, d, g) && Named(model, d, plan)
    ensures SafeAlong(model, d, [Unlink(Building(plan.target)), Unlink(Record(plan.target)), Barrier], g)
  {
    var t := plan.target;
    var e := Step(d, Unlink(Building(t)));
    NamedAfterHarmless(model, d, Unlink(Building(t)), plan, g);
    DropRecordStep(model, e, plan, g);
    StepSees(e, Unlink(Record(t)));
    var c := Step(e, Unlink(Record(t)));
    BarrierStep(model, c, g);
    var tail1 := [Barrier];
    assert tail1 == [Barrier] + [];
    SafeAlongCons(model, c, Barrier, [], g);
    var tail2 := [Unlink(Record(t)), Barrier];
    assert tail2 == [Unlink(Record(t))] + tail1;
    SafeAlongCons(model, e, Unlink(Record(t)), tail1, g);
    assert [Unlink(Building(t)), Unlink(Record(t)), Barrier] == [Unlink(Building(t))] + tail2;
    SafeAlongCons(model, d, Unlink(Building(t)), tail2, g);
  }

  /** The end of a published merge, once its sources are gone from what is visible. */
  lemma ClosePhase(model: CrashModel, d: Disk, plan: Plan, g: Goal)
    requires Safe(model, d, g) && HoldsRecord(d.inodes, Visible(d), plan)
    requires forall s :: s in plan.sources ==> Data(s) !in Visible(d)
    ensures SafeAlong(model, d, [Barrier, Unlink(Record(plan.target)), Unlink(Building(plan.target)), Barrier], g)
  {
    var t := plan.target;
    var e := Step(d, Barrier);
    BarrierStep(model, d, g);
    StepSees(d, Barrier);
    DropRecordStep(model, e, plan, g);
    var h := Step(e, Unlink(Record(t)));
    StepSees(e, Unlink(Record(t)));
    HarmlessStep(model, h, Unlink(Building(t)), g);
    var c := Step(h, Unlink(Building(t)));
    BarrierStep(model, c, g);
    var tail1 := [Barrier];
    assert tail1 == [Barrier] + [];
    SafeAlongCons(model, c, Barrier, [], g);
    var tail2 := [Unlink(Building(t)), Barrier];
    assert tail2 == [Unlink(Building(t))] + tail1;
    SafeAlongCons(model, h, Unlink(Building(t)), tail1, g);
    var tail3 := [Unlink(Record(t)), Unlink(Building(t)), Barrier];
    assert tail3 == [Unlink(Record(t))] + tail2;
    SafeAlongCons(model, e, Unlink(Record(t)), tail2, g);
    assert [Barrier, Unlink(Record(t)), Unlink(Building(t)), Barrier] == [Barrier] + tail3;
    SafeAlongCons(model, d, Barrier, tail3, g);
  }

  lemma FinishPhase(model: CrashModel, d: Disk, plan: Plan, g: Goal)
    requires Safe(model, d, g) && TargetNamed(model, d, plan)
    requires RecoverOne(ViewOf(d), plan).Some? && Data(plan.target) in ViewOf(d)
    ensures SafeAlong(model, d, RecoverOne(ViewOf(d), plan).value, g)
  {
    var t := plan.target;
    var retire := Retire(plan.sources, {});
    RetirePhase(model, d, plan, plan.sources, {}, g);
    var e := Exec(d, retire);
    ExecSees(d, retire);
    RetireSees(ViewOf(d), plan.sources, {});
    VisibleIsLive(model, e);
    VisibleInRange(e);
    forall s | s in plan.sources ensures Data(s) !in Visible(e) {
      assert Data(s) in (set x | x in plan.sources && x !in {} :: Data(x));
      assert Data(s) !in ViewOf(e);
    }
    ClosePhase(model, e, plan, g);
    SafeAlongConcat(model, d, retire, [Barrier, Unlink(Record(t)), Unlink(Building(t)), Barrier], g);
  }

  lemma SettlePhase(model: CrashModel, d: Disk, g: Goal)
    requires Safe(model, d, g) && Steady(model, d) && SettleRecord(ViewOf(d)).Some?
    ensures SafeAlong(model, d, SettleRecord(ViewOf(d)).value, g)
  {
    var view := ViewOf(d);
    SafeIsCoherent(model, d, g);
    OneRecord(view);
    RecordsAreNamed(view);
    if Records(view) != {} {
      var t := Listed(Records(view))[0];
      assert t in Records(view);
      var plan := view[Record(t)].plan;
      SteadyMeans(model, d, plan, g);
      if Data(t) in view { FinishPhase(model, d, plan, g); } else { AbandonPhase(model, d, plan, g); }
    }
  }

  lemma SteadyMeans(model: CrashModel, d: Disk, plan: Plan, g: Goal)
    requires Safe(model, d, g) && Steady(model, d)
    requires Record(plan.target) in ViewOf(d) && ViewOf(d)[Record(plan.target)] == Sidecar(plan)
    ensures Data(plan.target) in ViewOf(d) ==> TargetNamed(model, d, plan)
    ensures Data(plan.target) !in ViewOf(d) ==> Named(model, d, plan)
  {
    var t := plan.target;
    VisibleInRange(d);
    forall dir | Live(model, d, dir)
      ensures HoldsRecord(d.inodes, dir, plan) && (Data(t) in dir <==> Data(t) in ViewOf(d))
    {
      assert AgreesOn(d, dir, t);
    }
  }

  /** Recovery of a directory that is safe to lose power in stays so at every cut. */
  lemma RecoveryIsSafe(model: CrashModel, d: Disk, g: Goal)
    requires Safe(model, d, g) && Steady(model, d) && RecoveryTrace(ViewOf(d)).Some?
    ensures SafeAlong(model, d, RecoveryTrace(ViewOf(d)).value, g)
  {
    SettlePhase(model, d, g);
    SweepPhase(model, d, g);
  }

  /** A recovery is safe when what it does about the record is. */
  lemma SweepPhase(model: CrashModel, d: Disk, g: Goal)
    requires Safe(model, d, g) && RecoveryTrace(ViewOf(d)).Some? && SafeAlong(model, d, SettleRecord(ViewOf(d)).value, g)
    ensures SafeAlong(model, d, RecoveryTrace(ViewOf(d)).value, g)
  {
    var settle := SettleRecord(ViewOf(d)).value;
    SafeAtEveryCut(model, d, settle, g, |settle|);
    assert settle[..|settle|] == settle;
    ExecSees(d, settle);
    var v := ViewExec(ViewOf(d), settle);
    var sweep := Removals(Strays(v));
    StraysAreMeaningless(v);
    forall i | 0 <= i < |sweep| ensures Harmless(sweep[i]) { assert Strays(v)[i] in Strays(v); }
    SafeAlongHarmless(model, Exec(d, settle), sweep, g);
    SafeAlongConcat(model, d, settle, sweep, g);
  }

  // ------------------------------------------------------------------
  // Crashes, and runs of them
  // ------------------------------------------------------------------

  /** What stops a process: the power; or, where directory changes persist in order, its own death. */
  ghost predicate Crash(model: CrashModel, d: Disk, after: Disk) {
    PowerCut(model, d, after) || (model == InOrder && after == d)
  }

  lemma CrashKeepsSafe(model: CrashModel, d: Disk, after: Disk, g: Goal)
    requires Safe(model, d, g) && Crash(model, d, after)
    ensures Safe(model, after, g) && Steady(model, after)
  {
    if PowerCut(model, d, after) {
      assert Sound(d.inodes, after.durable, g);
      SoundAfterCut(d.inodes, after.inodes, after.durable, g);
    }
    VisibleInRange(after);
  }

  lemma SoundAfterCut(before: seq<Inode>, after: seq<Inode>, dir: Dir, g: Goal)
    requires Sound(before, dir, g) && |after| == |before|
    requires forall i :: 0 <= i < |before| ==> after[i].synced && (before[i].synced ==> after[i] == before[i])
    ensures Sound(after, dir, g)
  {
    SameMeaningSameEffect(ViewIn(before, dir), ViewIn(after, dir));
  }

  /** Reopening: recovery cut after `k` steps, or refused. */
  ghost predicate ReopenedTo(d: Disk, k: nat, after: Disk)
    requires WellFormed(d)
  {
    match RecoveryTrace(ViewOf(d))
    case None => after == d
    case Some(trace) => k <= |trace| && after == Exec(d, trace[..k])
  }

  /** A crash followed by a reopening that may itself be cut. */
  ghost predicate Attempt(model: CrashModel, d: Disk, after: Disk) {
    exists c, k: nat :: Crash(model, d, c) && WellFormed(c) && ReopenedTo(c, k, after)
  }

  lemma AttemptKeepsSafe(model: CrashModel, d: Disk, after: Disk, g: Goal)
    requires Safe(model, d, g) && Attempt(model, d, after)
    ensures Safe(model, after, g)
  {
    var c, k: nat :| Crash(model, d, c) && WellFormed(c) && ReopenedTo(c, k, after);
    CrashKeepsSafe(model, d, c, g);
    if RecoveryTrace(ViewOf(c)).Some? {
      RecoveryIsSafe(model, c, g);
      SafeAtEveryCut(model, c, RecoveryTrace(ViewOf(c)).value, g, k);
    }
  }

  /** Every disk of the run but the first is what a crash and a reopening made of the one before. */
  ghost predicate Attempts(model: CrashModel, ds: seq<Disk>) {
    forall i :: 0 < i < |ds| ==> Attempt(model, ds[i - 1], ds[i])
  }

  lemma {:induction false} AttemptsKeepSafe(model: CrashModel, ds: seq<Disk>, g: Goal, n: nat)
    requires n < |ds| && Safe(model, ds[0], g) && Attempts(model, ds)
    ensures Safe(model, ds[n], g)
  {
    if n > 0 {
      AttemptsKeepSafe(model, ds, g, n - 1);
      AttemptKeepsSafe(model, ds[n - 1], ds[n], g);
    }
  }

  /** What a reopening of `c` finds and leaves, when `c` must hold `g`. */
  ghost predicate Conserved(c: Disk, g: Goal) {
    && WellFormed(c)
    && Represents(ViewOf(c), g.entries)
    && (RecoveryTrace(ViewOf(c)).Some? <==> NoWiderThan(ViewOf(c), MAX_SOURCES))
    && (g.widest <= MAX_SOURCES ==> RecoveryTrace(ViewOf(c)).Some?)
    && (RecoveryTrace(ViewOf(c)).Some? ==>
          && Settled(ViewOf(Exec(c, RecoveryTrace(ViewOf(c)).value)))
          && Partition(Tables(ViewOf(Exec(c, RecoveryTrace(ViewOf(c)).value))), g.entries))
  }

  lemma SafeIsConserved(model: CrashModel, d: Disk, c: Disk, g: Goal)
    requires Safe(model, d, g) && Crash(model, d, c)
    ensures Conserved(c, g)
  {
    CrashKeepsSafe(model, d, c, g);
    SafeIsCoherent(model, c, g);
    RecoveryRuns(ViewOf(c));
    if RecoveryTrace(ViewOf(c)).Some? {
      RecoverySettles(ViewOf(c));
      ExecSees(c, RecoveryTrace(ViewOf(c)).value);
    }
  }

  /** Crash conservation. A merge is cut after any number of steps, whatever failed in it; any
      number of reopenings follow, each after a crash and each itself cut anywhere. Whenever the
      next crash comes, the canonical files that count hold exactly the entries from before the
      merge, each key once; a recovery that runs to its end leaves exactly those files; and one
      that refuses has changed nothing. It runs unless a record names more sources than it may. */
  lemma CrashConservation(model: CrashModel, d: Disk, job: Job, f: Fate, g: Goal, k: nat, ds: seq<Disk>, c: Disk)
    requires Safe(model, d, g) && Quiet(model, d, job.plan.target) && FitsView(job, ViewOf(d))
    requires |job.plan.sources| <= g.widest
    requires k <= |MergeTrace(job, f)|
    requires |ds| > 0 && ds[0] == Exec(d, MergeTrace(job, f)[..k])
    requires Attempts(model, ds)
    requires Crash(model, ds[|ds| - 1], c)
    ensures Conserved(c, g)
  {
    MergeIsSafe(model, d, job, f, g);
    SafeAtEveryCut(model, d, MergeTrace(job, f), g, k);
    AttemptsKeepSafe(model, ds, g, |ds| - 1);
    SafeIsConserved(model, ds[|ds| - 1], c, g);
  }
}
