/**
  One merge after another: a merge that is over, and did not latch, leaves a directory the
  next one may start in.
*/
module Chain {
  import opened Basics
  import opened Disk
  import opened Recovery
  import opened CrashSafety
  import opened Merge
  import opened Settling
  import opened MergeEffect
  import opened CrashRuns
  import opened Limits

  /** In every survivor a change may land on, nothing is in flight and every identity below
      `next` only. */
  ghost predicate Calm(model: CrashModel, d: Disk, next: nat) {
    forall dir :: Live(model, d, dir) ==> CalmDir(dir, next)
  }

  ghost predicate CalmDir(dir: Dir, next: nat) {
    (forall u :: Record(u) !in dir) && (forall v: nat :: Data(v) in dir ==> v < next)
  }

  lemma CalmIsQuiet(model: CrashModel, d: Disk, next: nat)
    requires WellFormed(d) && Calm(model, d, next)
    ensures Quiet(model, d, next)
    ensures NoRecord(ViewOf(d)) && Data(next) !in ViewOf(d)
  {
    forall dir | Live(model, d, dir) ensures NothingInFlight(dir, next) {
      assert CalmDir(dir, next);
    }
    VisibleIsLive(model, d);
    assert CalmDir(Visible(d), next);
  }

  lemma CalmDirSameNames(a: Dir, b: Dir, next: nat)
    requires CalmDir(a, next) && SameNames(a, b)
    ensures CalmDir(b, next)
  {
    forall u ensures Record(u) !in b { assert Record(u) !in a; }
    forall v: nat | Data(v) in b ensures v < next { assert Data(v) in a; }
  }

  /** Steps on names that carry no meaning change no survivor's meaning. */
  lemma {:induction false} LiveAlongHarmless(model: CrashModel, d: Disk, trace: seq<Instr>, g: Goal)
    requires Safe(model, d, g)
    requires forall i :: 0 <= i < |trace| ==> Harmless(trace[i])
    ensures Safe(model, Exec(d, trace), g)
    ensures LiveAsBefore(model, d, Exec(d, trace))
    decreases |trace|
  {
    if trace == [] {
      forall dir | Live(model, d, dir) ensures exists prev :: Live(model, d, prev) && SameNames(prev, dir) {
        assert Live(model, d, dir) && SameNames(dir, dir);
      }
    } else {
      HarmlessStep(model, d, trace[0], g);
      LiveAlongHarmless(model, Step(d, trace[0]), trace[1..], g);
      LiveAsBeforeTrans(model, d, Step(d, trace[0]), Exec(d, trace));
    }
  }

  lemma CalmAlongHarmless(model: CrashModel, d: Disk, trace: seq<Instr>, next: nat, g: Goal)
    requires Safe(model, d, g) && Calm(model, d, next)
    requires forall i :: 0 <= i < |trace| ==> Harmless(trace[i])
    ensures Calm(model, Exec(d, trace), next)
  {
    LiveAlongHarmless(model, d, trace, g);
    forall dir | Live(model, Exec(d, trace), dir) ensures CalmDir(dir, next) {
      var prev :| Live(model, d, prev) && SameNames(prev, dir);
      CalmDirSameNames(prev, dir, next);
    }
  }

  /** What is visible is calm. */
  ghost predicate LooksCalm(view: View, next: nat) {
    NoRecord(view) && forall v: nat :: Data(v) in view ==> v < next
  }

  lemma CalmWhenOne(model: CrashModel, d: Disk, next: nat)
    requires WellFormed(d) && (model == InOrder || d.pending == []) && LooksCalm(ViewOf(d), next)
    ensures Calm(model, d, next)
  {
    VisibleInRange(d);
    forall dir | Live(model, d, dir) ensures CalmDir(dir, next) {
      assert dir == Visible(d);
      forall u ensures Record(u) !in dir { assert Record(u) !in ViewOf(d); }
      forall v: nat | Data(v) in dir ensures v < next { assert Data(v) in ViewOf(d); }
    }
  }

  lemma CalmLooksCalm(model: CrashModel, d: Disk, next: nat)
    requires WellFormed(d) && Calm(model, d, next)
    ensures LooksCalm(ViewOf(d), next)
  {
    VisibleIsLive(model, d);
    assert CalmDir(Visible(d), next);
  }

  /** A merge over and not latched looks calm. */
  lemma LooksCalmAfter(view: View, job: Job, f: Fate)
    requires FitsView(job, view) && LooksCalm(view, job.plan.target) && RecordsOk(ViewExec(view, MergeTrace(job, f)))
    requires !OutcomeOf(job, f).Latched?
    ensures LooksCalm(ViewExec(view, MergeTrace(job, f)), if OutcomeOf(job, f).Merged? then job.plan.target + 1 else job.plan.target)
  {
    MergeEffects(view, job, f);
    var after := ViewExec(view, MergeTrace(job, f));
    TablesOf(view);
    TablesOf(after);
    forall v: nat | Data(v) in after ensures v < job.plan.target || (OutcomeOf(job, f).Merged? && v == job.plan.target) {
      assert after[Data(v)].Rows?;
      assert v in Tables(after);
    }
  }

  lemma EndsWithBarrier(d: Disk, trace: seq<Instr>)
    requires WellFormed(d)
    ensures Exec(d, trace + [Barrier]).pending == []
  {
    ExecConcat(d, trace, [Barrier]);
    assert [Barrier] == [Barrier] + [];
    ExecCons(Exec(d, trace), Barrier, []);
  }

  /** A publication that failed, up to the confirmed removal of its record. */
  function Withdrawal(job: Job): seq<Instr> {
    (NamingTrace(job) + [Barrier] + [Unlink(Record(job.plan.target))]) + [Barrier]
  }

  lemma WithdrawnTrace(job: Job, f: Fate)
    requires NamesRecord(f) && OutcomeOf(job, f).Refused?
    ensures MergeTrace(job, f) == Withdrawal(job) + Abandon(job, f)
  {
    TraceOfNaming(job, f);
    assert ConfirmRecord(job, f) == [Barrier] + Withdraw(job, f);
    Associate(NamingTrace(job), [Barrier], [Unlink(Record(job.plan.target))], [Barrier], Abandon(job, f));
  }

  lemma Associate(a: seq<Instr>, b: seq<Instr>, c: seq<Instr>, d: seq<Instr>, e: seq<Instr>)
    ensures a + (b + (c + (d + e))) == ((a + b + c) + d) + e
  {
  }

  /** A merge withdrawn after its record was durable. */
  lemma CalmWhenWithdrawn(model: CrashModel, d: Disk, job: Job, f: Fate, g: Goal)
    requires Safe(model, d, g) && Calm(model, d, job.plan.target) && FitsView(job, ViewOf(d))
    requires |job.plan.sources| <= g.widest
    requires NamesRecord(f) && OutcomeOf(job, f).Refused?
    ensures Calm(model, Exec(d, MergeTrace(job, f)), job.plan.target)
  {
    var t := job.plan.target;
    WithdrawnTrace(job, f);
    CalmIsQuiet(model, d, t);
    MergeIsSafe(model, d, job, f, g);
    SafeAtEveryCut(model, d, MergeTrace(job, f), g, |Withdrawal(job)|);
    assert MergeTrace(job, f)[..|Withdrawal(job)|] == Withdrawal(job);
    EndsWithBarrier(d, NamingTrace(job) + [Barrier] + [Unlink(Record(t))]);
    ExecConcat(d, Withdrawal(job), Abandon(job, f));
    CalmLooksCalm(model, d, t);
    WithdrawnLooksCalm(d, job);
    WithdrawnStaysCalm(model, Exec(d, Withdrawal(job)), job, f, g);
  }

  lemma WithdrawnStaysCalm(model: CrashModel, e: Disk, job: Job, f: Fate, g: Goal)
    requires Safe(model, e, g) && e.pending == [] && LooksCalm(ViewOf(e), job.plan.target)
    ensures Calm(model, Exec(e, Abandon(job, f)), job.plan.target)
  {
    CalmWhenOne(model, e, job.plan.target);
    CalmAlongHarmless(model, e, Abandon(job, f), job.plan.target, g);
  }

  lemma WithdrawnLooksCalm(d: Disk, job: Job)
    requires WellFormed(d) && NoRecord(ViewOf(d)) && LooksCalm(ViewOf(d), job.plan.target)
    ensures LooksCalm(ViewOf(Exec(d, Withdrawal(job))), job.plan.target)
  {
    var t := job.plan.target;
    var tail := [Barrier] + [Unlink(Record(t))] + [Barrier];
    var trace := Withdrawal(job);
    assert trace == NamingTrace(job) + tail;
    ExecSees(d, trace);
    ViewExecConcat(ViewOf(d), NamingTrace(job), tail);
    NamingUnderway(ViewOf(d), job);
    var v := ViewExec(ViewOf(d), NamingTrace(job));
    assert tail == [Barrier] + [Unlink(Record(t)), Barrier];
    ViewExecCons(v, Barrier, [Unlink(Record(t)), Barrier]);
    assert [Unlink(Record(t)), Barrier] == [Unlink(Record(t))] + [Barrier];
    ViewExecCons(v, Unlink(Record(t)), [Barrier]);
    assert [Barrier] == [Barrier] + [];
    ViewExecCons(v - {Record(t)}, Barrier, []);
  }

  lemma CompleteEndsClean(d: Disk, job: Job, f: Fate)
    requires WellFormed(d) && OutcomeOf(job, f).Merged? && f.finalBarrier
    ensures Exec(d, MergeTrace(job, f)).pending == []
  {
    var last := [Barrier, Unlink(Record(job.plan.target))];
    SplitAtTheEnd(job, f);
    EndIsABarrier(job, f);
    Regrouped(BeforeTheEnd(job, f), last, [Barrier]);
    EndsWithBarrier(d, BeforeTheEnd(job, f) + last);
  }

  lemma EndIsABarrier(job: Job, f: Fate)
    requires f.finalBarrier
    ensures End(job, f) == [Barrier, Unlink(Record(job.plan.target))] + [Barrier]
  {
  }

  lemma Regrouped(a: seq<Instr>, b: seq<Instr>, c: seq<Instr>)
    ensures a + (b + c) == (a + b) + c
  {
  }

  lemma MergedIsCoherent(model: CrashModel, d: Disk, job: Job, f: Fate, g: Goal)
    requires Safe(model, d, g) && Calm(model, d, job.plan.target) && FitsView(job, ViewOf(d))
    requires |job.plan.sources| <= g.widest
    ensures WellFormed(Exec(d, MergeTrace(job, f))) && RecordsOk(ViewOf(Exec(d, MergeTrace(job, f))))
  {
    var whole := MergeTrace(job, f);
    CalmIsQuiet(model, d, job.plan.target);
    MergeIsSafe(model, d, job, f, g);
    SafeAtEveryCut(model, d, whole, g, |whole|);
    assert whole[..|whole|] == whole;
    SafeIsCoherent(model, Exec(d, whole), g);
  }

  lemma CalmWhenMerged(model: CrashModel, d: Disk, job: Job, f: Fate, g: Goal)
    requires Safe(model, d, g) && Calm(model, d, job.plan.target) && FitsView(job, ViewOf(d))
    requires |job.plan.sources| <= g.widest
    requires OutcomeOf(job, f).Merged? && (model == InOrder || f.finalBarrier)
    ensures Calm(model, Exec(d, MergeTrace(job, f)), job.plan.target + 1)
  {
    var whole := MergeTrace(job, f);
    MergedIsCoherent(model, d, job, f, g);
    CalmLooksCalm(model, d, job.plan.target);
    ExecSees(d, whole);
    LooksCalmAfter(ViewOf(d), job, f);
    if model == AnySubset { CompleteEndsClean(d, job, f); }
    CalmWhenOne(model, Exec(d, whole), job.plan.target + 1);
  }

  /** The next merge may start where this one ended, unless it latched; where any subset of the
      pending changes may be lost, a complete one must also have confirmed its last removal. */
  lemma CalmAfterMerge(model: CrashModel, d: Disk, job: Job, f: Fate, g: Goal)
    requires Safe(model, d, g) && Calm(model, d, job.plan.target) && FitsView(job, ViewOf(d))
    requires |job.plan.sources| <= g.widest
    requires !OutcomeOf(job, f).Latched?
    requires OutcomeOf(job, f).Merged? ==> model == InOrder || f.finalBarrier
    ensures Calm(model, Exec(d, MergeTrace(job, f)), if OutcomeOf(job, f).Merged? then job.plan.target + 1 else job.plan.target)
  {
    if OutcomeOf(job, f).Merged? {
      CalmWhenMerged(model, d, job, f, g);
    } else if NamesRecord(f) {
      CalmWhenWithdrawn(model, d, job, f, g);
    } else {
      UnnamedIsHarmless(job, f);
      CalmAlongHarmless(model, d, MergeTrace(job, f), job.plan.target, g);
    }
  }

  lemma UnnamedIsHarmless(job: Job, f: Fate)
    requires !NamesRecord(f)
    ensures forall i :: 0 <= i < |MergeTrace(job, f)| ==> Harmless(MergeTrace(job, f)[i])
  {
    assert forall i :: 0 <= i < |DiscardTemp(job, f)| ==> Harmless(DiscardTemp(job, f)[i]);
    if f.build == Built && f.contentSynced {
      assert forall i :: 0 <= i < |WriteRecord(job, f)| ==> Harmless(WriteRecord(job, f)[i]);
    }
    assert forall i :: 0 <= i < |BuildTarget(job, f)| ==> Harmless(BuildTarget(job, f)[i]);
  }

  // ------------------------------------------------------------------
  // After a recovery
  // ------------------------------------------------------------------

  /** A directory recovery may work on so that a merge may follow: every survivor agrees about the
      record in flight, and when none is visible none survives. */
  ghost predicate Ready(model: CrashModel, d: Disk, next: nat) {
    Steady(model, d) && (NoRecord(ViewOf(d)) ==> Calm(model, d, next))
  }

  /** Every version recovery leaves is below `next`. */
  ghost predicate LeavesBelow(view: View, next: nat) {
    RecoveryTrace(view).Some? && forall v: nat :: Data(v) in ViewExec(view, RecoveryTrace(view).value) ==> v < next
  }

  lemma SweepKeepsVersions(view: View, next: nat)
    requires RecordsOk(view) && LeavesBelow(view, next)
    ensures forall v: nat :: Data(v) in ViewExec(view, SettleRecord(view).value) ==> v < next
  {
    var settle := SettleRecord(view).value;
    var after := ViewExec(view, settle);
    ViewExecConcat(view, settle, Removals(Strays(after)));
    RemovalsSee(after, Strays(after));
    StraysAreMeaningless(after);
    forall v: nat | Data(v) in after ensures v < next {
      assert Data(v) in ViewExec(view, RecoveryTrace(view).value);
    }
  }

  /** What a power cut leaves is one directory, and so is what an ordered one shows. */
  lemma ReadyWhenOne(model: CrashModel, d: Disk, next: nat)
    requires WellFormed(d) && (model == InOrder || d.pending == [])
    requires RecordsOk(ViewOf(d)) && LeavesBelow(ViewOf(d), next)
    ensures Ready(model, d, next)
  {
    VisibleInRange(d);
    if NoRecord(ViewOf(d)) {
      NothingToSettle(ViewOf(d));
      SweepKeepsVersions(ViewOf(d), next);
      CalmWhenOne(model, d, next);
    }
  }

  lemma NothingToSettle(view: View)
    requires NoRecord(view)
    ensures SettleRecord(view) == Some([])
  {
    RecordsAreNamed(view);
  }

  lemma SettleEndsWithBarrier(view: View)
    requires RecordsOk(view) && SettleRecord(view).Some? && !NoRecord(view)
    ensures exists before: seq<Instr> :: SettleRecord(view).value == before + [Barrier]
  {
    RecordsAreNamed(view);
    OneRecord(view);
    var t := Listed(Records(view))[0];
    assert t in Records(view);
    var plan := view[Record(t)].plan;
    if Data(t) in view {
      assert SettleRecord(view).value
          == (Retire(plan.sources, {}) + [Barrier, Unlink(Record(t)), Unlink(Building(t))]) + [Barrier];
    } else {
      assert SettleRecord(view).value == [Unlink(Building(t)), Unlink(Record(t))] + [Barrier];
    }
  }

  lemma SettledLooksCalm(d: Disk, next: nat)
    requires WellFormed(d) && RecordsOk(ViewOf(d)) && LeavesBelow(ViewOf(d), next)
    ensures LooksCalm(ViewOf(Exec(d, SettleRecord(ViewOf(d)).value)), next)
  {
    var settle := SettleRecord(ViewOf(d)).value;
    var after := ViewExec(ViewOf(d), settle);
    SettleEffect(ViewOf(d));
    ExecSees(d, settle);
    SweepKeepsVersions(ViewOf(d), next);
    RecordsAreNamed(after);
  }

  lemma SettledIsCalm(model: CrashModel, d: Disk, next: nat, g: Goal)
    requires Safe(model, d, g) && Ready(model, d, next) && LeavesBelow(ViewOf(d), next)
    ensures var e := Exec(d, SettleRecord(ViewOf(d)).value); Safe(model, e, g) && Calm(model, e, next)
  {
    var settle := SettleRecord(ViewOf(d)).value;
    SafeIsCoherent(model, d, g);
    SettlePhase(model, d, g);
    SafeAtEveryCut(model, d, settle, g, |settle|);
    assert settle[..|settle|] == settle;
    if NoRecord(ViewOf(d)) {
      NothingToSettle(ViewOf(d));
    } else {
      SettleEndsWithBarrier(ViewOf(d));
      var before :| settle == before + [Barrier];
      EndsWithBarrier(d, before);
      SettledLooksCalm(d, next);
      CalmWhenOne(model, Exec(d, settle), next);
    }
  }

  /** A recovery that ran to its end leaves a directory the next merge may start in, and one that
      is safe to lose power in. */
  lemma CalmAfterRecovery(model: CrashModel, d: Disk, next: nat, g: Goal)
    requires Safe(model, d, g) && Ready(model, d, next) && LeavesBelow(ViewOf(d), next)
    ensures var e := Exec(d, RecoveryTrace(ViewOf(d)).value); Safe(model, e, g) && Calm(model, e, next)
  {
    var settle := SettleRecord(ViewOf(d)).value;
    var e := Exec(d, settle);
    SettledIsCalm(model, d, next, g);
    ExecSees(d, settle);
    var sweep := Removals(Strays(ViewOf(e)));
    StraysAreMeaningless(ViewOf(e));
    forall i | 0 <= i < |sweep| ensures Harmless(sweep[i]) { assert Strays(ViewOf(e))[i] in Strays(ViewOf(e)); }
    LiveAlongHarmless(model, e, sweep, g);
    CalmAlongHarmless(model, e, sweep, next, g);
    ExecConcat(d, settle, sweep);
  }
}
