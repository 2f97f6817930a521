/**
  What a merge leaves in the directory, name by name, however it ends.
*/
module Tidying {
  import opened Basics
  import opened Disk
  import opened Recovery
  import opened CrashSafety
  import opened Merge
  import opened MergeEffect
  import opened Settling

  /** The target got its canonical name. */
  predicate Published(f: Fate) { NamesRecord(f) && f.recordBarrier && f.published }

  /** What became of the build's own file: after publication it is a second name, which goes with the second half of the
      publication; before it, it goes with the unchecked removal, where the merge gets that far. */
  predicate KeepsBuild(f: Fate) {
    if Published(f) then !f.strayRemoved
    else if NamesRecord(f) && f.recordBarrier then !(f.recordWithdrawn && f.withdrawBarrier && f.abandonRemoves)
    else !f.abandonRemoves
  }

  /** The record outlives the merge unless its removal was reached and worked. */
  predicate KeepsRecord(job: Job, f: Fate) {
    && NamesRecord(f)
    && if !f.recordBarrier then !f.recordTidied
       else if !f.published then !f.recordWithdrawn
       else !(f.targetBarrier && f.markerMatches && f.retireBarrier && f.recordRemoved && forall s :: s in job.plan.sources ==> s !in f.stuck)
  }

  /** The names a merge may touch. */
  predicate Concerns(plan: Plan, n: Name) {
    if n.Data? then n.version == plan.target || n.version in plan.sources else n.version == plan.target
  }

  /** The directory name by name: which names of the plan are there, and everything else as it was. */
  ghost predicate Spelled(view: View, after: View, job: Job, build: bool, temp: bool, record: bool, target: bool, gone: set<nat>) {
    var t := job.plan.target;
    && (Building(t) in after <==> build) && (RecordTmp(t) in after <==> temp)
    && (Record(t) in after <==> record) && (Record(t) in after ==> after[Record(t)] == Sidecar(job.plan))
    && (Data(t) in after <==> target) && (Data(t) in after ==> after[Data(t)] == Rows(job.merged, Some(job.plan.id)))
    && (forall s :: s in job.plan.sources ==>
          if s in gone then Data(s) !in after else Data(s) in after && Data(s) in view && after[Data(s)] == view[Data(s)])
    && (forall n :: !Concerns(job.plan, n) ==> (n in after <==> n in view) && (n in after ==> after[n] == view[n]))
  }

  /** The sources whose files are gone. */
  function Gone(job: Job, f: Fate): set<nat> {
    if Catalogued(f) then set s | s in job.plan.sources && s !in f.stuck else {}
  }

  /** What a merge that ran to its end leaves. */
  ghost predicate Leavings(view: View, after: View, job: Job, f: Fate) {
    Spelled(view, after, job,
            (f.build.NotCreated? ==> !f.build.cleared && Building(job.plan.target) in view) && KeepsBuild(f),
            if f.build == Built && f.contentSynced then !NamesRecord(f) && !f.tempDiscarded else RecordTmp(job.plan.target) in view,
            KeepsRecord(job, f), Published(f),
            Gone(job, f))
  }

  lemma AbandonLeaves(v: View, job: Job, f: Fate)
    ensures ViewExec(v, Abandon(job, f)) == if f.abandonRemoves then v - {Building(job.plan.target)} else v
  {
    if f.abandonRemoves { ViewExecCons(v, Unlink(Building(job.plan.target)), []); }
    assert [Unlink(Building(job.plan.target))] + [] == [Unlink(Building(job.plan.target))];
  }

  /** The same, of a merge that named no record. */
  ghost predicate UnnamedLeavings(view: View, after: View, t: nat, build: bool, temp: bool) {
    && (Building(t) in after <==> build) && (RecordTmp(t) in after <==> temp)
    && forall n :: n != Building(t) && n != RecordTmp(t) ==> (n in after <==> n in view) && (n in after ==> after[n] == view[n])
  }

  lemma DiscardTempLeaves(v: View, view: View, job: Job, f: Fate)
    requires UnnamedLeavings(view, v, job.plan.target, true, true)
    ensures UnnamedLeavings(view, ViewExec(v, DiscardTemp(job, f)), job.plan.target, !f.abandonRemoves, !f.tempDiscarded)
  {
    if f.tempDiscarded {
      ViewExecCons(v, Unlink(RecordTmp(job.plan.target)), Abandon(job, f));
      AbandonLeaves(v - {RecordTmp(job.plan.target)}, job, f);
    } else {
      assert [] + Abandon(job, f) == Abandon(job, f);
      AbandonLeaves(v, job, f);
    }
  }

  lemma WriteRecordLeaves(v: View, view: View, job: Job, f: Fate)
    requires UnnamedLeavings(view, v, job.plan.target, true, RecordTmp(job.plan.target) in view) && !NamesRecord(f)
    requires f.build == Built && f.contentSynced
    ensures UnnamedLeavings(view, ViewExec(v, WriteRecord(job, f)), job.plan.target, !f.abandonRemoves, !f.tempDiscarded)
  {
    var t := job.plan.target;
    if !f.recordWritten {
      ViewExecCons(v, Create(RecordTmp(t), Scrap), DiscardTemp(job, f));
      DiscardTempLeaves(v[RecordTmp(t) := Scrap], view, job, f);
    } else {
      var w := v[RecordTmp(t) := Sidecar(job.plan)];
      ViewExecCons(v, Create(RecordTmp(t), Sidecar(job.plan)), SyncRecord(job, f));
      if f.recordSynced { ViewExecCons(w, Fsync(RecordTmp(t)), NameRecord(job, f)); }
      DiscardTempLeaves(w, view, job, f);
    }
  }

  lemma NotCreatedLeaves(view: View, job: Job, f: Fate)
    requires f.build.NotCreated?
    ensures UnnamedLeavings(view, ViewExec(view, MergeTrace(job, f)), job.plan.target,
                            !f.build.cleared && Building(job.plan.target) in view && !f.abandonRemoves, RecordTmp(job.plan.target) in view)
  {
    var t := job.plan.target;
    if f.build.cleared { ViewExecCons(view, Unlink(Building(t)), BuildTarget(job, f)); }
    AbandonLeaves(if f.build.cleared then view - {Building(t)} else view, job, f);
  }

  lemma UnnamedLeaves(view: View, job: Job, f: Fate)
    requires !NamesRecord(f) && !f.build.NotCreated?
    ensures UnnamedLeavings(view, ViewExec(view, MergeTrace(job, f)), job.plan.target, !f.abandonRemoves,
                            if f.build == Built && f.contentSynced then !f.tempDiscarded else RecordTmp(job.plan.target) in view)
  {
    var t := job.plan.target;
    var v := view - {Building(t)};
    ViewExecCons(view, Unlink(Building(t)), BuildTarget(job, f));
    if f.build.Partial? {
      ViewExecCons(v, Create(Building(t), f.build.left), Abandon(job, f));
      AbandonLeaves(v[Building(t) := f.build.left], job, f);
    } else {
      var w := v[Building(t) := Target(job)];
      ViewExecCons(v, Create(Building(t), Target(job)), SyncTarget(job, f));
      if f.contentSynced {
        ViewExecCons(w, Fsync(Building(t)), WriteRecord(job, f));
        WriteRecordLeaves(w, view, job, f);
      } else {
        AbandonLeaves(w, job, f);
      }
    }
  }

  lemma UnnamedSpells(view: View, after: View, job: Job, build: bool, temp: bool)
    requires UnnamedLeavings(view, after, job.plan.target, build, temp) && FitsView(job, view) && NoRecord(view)
    ensures Spelled(view, after, job, build, temp, false, false, {})
  {
    forall s | s in job.plan.sources ensures Data(s) in view { assert s in Tables(view); }
  }

  /** The view once the record has its name. */
  ghost predicate Recorded(v: View, view: View, job: Job) {
    var t := job.plan.target;
    && Building(t) in v && v[Building(t)] == Target(job) && RecordTmp(t) !in v
    && Record(t) in v && v[Record(t)] == Sidecar(job.plan)
    && (forall n :: n != Building(t) && n != RecordTmp(t) && n != Record(t) ==> (n in v <==> n in view) && (n in v ==> v[n] == view[n]))
  }

  lemma RecordedAtNaming(view: View, job: Job)
    ensures Recorded(ViewExec(view, NamingTrace(job)), view, job)
  {
    NamingSees(view, job);
  }

  lemma UnpublishedSpells(v: View, view: View, job: Job, build: bool, record: bool)
    requires Recorded(v, view, job) && FitsView(job, view)
    ensures Spelled(view, v - (if build then {} else {Building(job.plan.target)}) - (if record then {} else {Record(job.plan.target)}),
                    job, build, false, record, false, {})
  {
    forall s | s in job.plan.sources ensures Data(s) in view { assert s in Tables(view); }
  }

  lemma UnpublishedLeaves(v: View, view: View, job: Job, f: Fate)
    requires NamesRecord(f) && !Published(f) && Recorded(v, view, job) && FitsView(job, view)
    ensures Leavings(view, ViewExec(v, ConfirmRecord(job, f)), job, f)
  {
    UnpublishedView(v, job, f);
    UnpublishedSpells(v, view, job, KeepsBuild(f), KeepsRecord(job, f));
  }

  lemma UnpublishedView(v: View, job: Job, f: Fate)
    requires NamesRecord(f) && !Published(f)
    ensures ViewExec(v, ConfirmRecord(job, f)) ==
            v - (if KeepsBuild(f) then {} else {Building(job.plan.target)}) - (if KeepsRecord(job, f) then {} else {Record(job.plan.target)})
  {
    var t := job.plan.target;
    if !f.recordBarrier {
      var tidy := if f.recordTidied then [Unlink(Record(t))] else [];
      ViewExecConcat(v, Abandon(job, f), tidy);
      AbandonLeaves(v, job, f);
      if f.recordTidied {
        assert tidy == [Unlink(Record(t))] + [];
        ViewExecCons(ViewExec(v, Abandon(job, f)), Unlink(Record(t)), []);
      }
    } else {
      ViewExecCons(v, Barrier, Withdraw(job, f));
      if f.recordWithdrawn {
        ViewExecCons(v, Unlink(Record(t)), if f.withdrawBarrier then [Barrier] + Abandon(job, f) else []);
        if f.withdrawBarrier {
          ViewExecCons(v - {Record(t)}, Barrier, Abandon(job, f));
          AbandonLeaves(v - {Record(t)}, job, f);
        }
      }
    }
  }

  /** From the target's name on: the sources that went, and the record if all did. */
  lemma ConfirmedLeaves(d: View, job: Job, f: Fate)
    requires Published(f)
    ensures ViewExec(d, ConfirmTarget(job, f)) ==
            d - (set s | s in Gone(job, f) :: Data(s)) - (if KeepsRecord(job, f) then {} else {Record(job.plan.target)})
  {
    if f.targetBarrier {
      ViewExecCons(d, Barrier, RetireSources(job, f));
      if f.markerMatches {
        RetireSees(d, job.plan.sources, f.stuck);
        ViewExecConcat(d, Retire(job.plan.sources, f.stuck), ConfirmRetired(job, f));
        ClosedLeaves(ViewExec(d, Retire(job.plan.sources, f.stuck)), job, f);
      }
    }
  }

  lemma ClosedLeaves(e: View, job: Job, f: Fate)
    ensures ViewExec(e, ConfirmRetired(job, f)) == e - if AllRetired(job, f) && f.recordRemoved then {Record(job.plan.target)} else {}
  {
    var t := job.plan.target;
    if f.retireBarrier {
      ViewExecCons(e, Barrier, if AllRetired(job, f) then RemoveRecord(job, f) else []);
      if AllRetired(job, f) && f.recordRemoved {
        ViewExecCons(e, Unlink(Record(t)), if f.finalBarrier then [Barrier] else []);
        assert [Barrier] + [] == [Barrier];
        ViewExecCons(e - {Record(t)}, Barrier, []);
      }
    }
  }

  /** The view with the target published, without these names. */
  function Thinned(v: View, job: Job, build: bool, record: bool, gone: set<nat>): (r: View)
    ensures forall n :: n in r <==>
              (n == Data(job.plan.target) || n in v) && (n == Building(job.plan.target) ==> build) && (n == Record(job.plan.target) ==> record)
              && !(n.Data? && n.version in gone)
    ensures forall n :: n in r ==> r[n] == if n == Data(job.plan.target) then Target(job) else v[n]
  {
    v[Data(job.plan.target) := Target(job)] - (if build then {} else {Building(job.plan.target)})
    - (set s | s in gone :: Data(s)) - (if record then {} else {Record(job.plan.target)})
  }

  lemma PublishedSpells(v: View, view: View, after: View, job: Job, build: bool, record: bool, gone: set<nat>)
    requires Recorded(v, view, job) && FitsView(job, view) && forall s :: s in gone ==> s in job.plan.sources
    requires after == Thinned(v, job, build, record, gone)
    ensures Spelled(view, after, job, build, false, record, true, gone)
  {
    forall s | s in job.plan.sources ensures Data(s) in view && s != job.plan.target { assert s in Tables(view); }
  }

  lemma PublishSees(v: View, job: Job, f: Fate)
    requires Published(f) && Building(job.plan.target) in v && v[Building(job.plan.target)] == Target(job)
    ensures ViewExec(v, ConfirmRecord(job, f)) ==
            ViewExec(v[Data(job.plan.target) := Target(job)] - (if f.strayRemoved then {Building(job.plan.target)} else {}), ConfirmTarget(job, f))
  {
    var t := job.plan.target;
    ViewExecCons(v, Barrier, Publish(job, f));
    ViewExecCons(v, Link(Building(t), Data(t)), ClearStray(job, f));
    var linked := v[Data(t) := Target(job)];
    if f.strayRemoved {
      ViewExecCons(linked, Unlink(Building(t)), ConfirmTarget(job, f));
    } else {
      assert [] + ConfirmTarget(job, f) == ConfirmTarget(job, f);
      assert linked - {} == linked;
    }
  }

  lemma PublishedView(v: View, job: Job, f: Fate)
    requires Published(f) && Building(job.plan.target) in v && v[Building(job.plan.target)] == Target(job)
    ensures ViewExec(v, ConfirmRecord(job, f)) == Thinned(v, job, KeepsBuild(f), KeepsRecord(job, f), Gone(job, f))
  {
    PublishSees(v, job, f);
    ConfirmedLeaves(v[Data(job.plan.target) := Target(job)] - (if f.strayRemoved then {Building(job.plan.target)} else {}), job, f);
  }

  lemma PublishedLeaves(v: View, view: View, job: Job, f: Fate)
    requires Published(f) && Recorded(v, view, job) && FitsView(job, view)
    ensures Leavings(view, ViewExec(v, ConfirmRecord(job, f)), job, f)
  {
    PublishedView(v, job, f);
    PublishedSpells(v, view, ViewExec(v, ConfirmRecord(job, f)), job, KeepsBuild(f), KeepsRecord(job, f), Gone(job, f));
  }

  /** Every name after a merge that ran to its end. After publication the build's name is there exactly when the second
      half of the publication failed; no name outside the plan ever changes. */
  lemma MergeLeaves(view: View, job: Job, f: Fate)
    requires FitsView(job, view) && NoRecord(view)
    ensures Leavings(view, ViewExec(view, MergeTrace(job, f)), job, f)
  {
    if NamesRecord(f) {
      TraceOfNaming(job, f);
      ViewExecConcat(view, NamingTrace(job), ConfirmRecord(job, f));
      RecordedAtNaming(view, job);
      var v := ViewExec(view, NamingTrace(job));
      if Published(f) { PublishedLeaves(v, view, job, f); } else { UnpublishedLeaves(v, view, job, f); }
    } else {
      if f.build.NotCreated? { NotCreatedLeaves(view, job, f); } else { UnnamedLeaves(view, job, f); }
      UnnamedSpells(view, ViewExec(view, MergeTrace(job, f)), job,
                    (f.build.NotCreated? ==> !f.build.cleared && Building(job.plan.target) in view) && KeepsBuild(f),
                    if f.build == Built && f.contentSynced then !NamesRecord(f) && !f.tempDiscarded else RecordTmp(job.plan.target) in view);
    }
  }

  /** What a merge answers, told by what is in the directory: completed exactly when the target has its name and the record
      has not, and latched whenever the record is still named. An error that latches nothing leaves neither. */
  lemma AnswersByWhatIsLeft(view: View, job: Job, f: Fate)
    requires FitsView(job, view) && NoRecord(view)
    ensures var after, t := ViewExec(view, MergeTrace(job, f)), job.plan.target;
            && (OutcomeOf(job, f).Merged? <==> Data(t) in after && Record(t) !in after)
            && (Record(t) in after ==> OutcomeOf(job, f).Latched?)
            && (OutcomeOf(job, f).Refused? ==> Data(t) !in after && Record(t) !in after)
    ensures CodesNameTheStep(OutcomeOf(job, f), f)
  {
    MergeLeaves(view, job, f);
  }

  /** Which step each error of a merge that built its target is about. */
  predicate CodesNameTheStep(outcome: Outcome, f: Fate) {
    var synced, withdrawn := f.contentSynced && f.recordWritten && f.recordSynced, f.recordWithdrawn && f.withdrawBarrier;
    && (f.build != Built ==> outcome == Refused(f.build.why))
    && (f.build == Built ==>
         && (outcome == Refused(MetadataWriteFailed) <==> f.contentSynced && !f.recordWritten)
         && (outcome == Refused(SyncFailed) <==> !f.contentSynced || (f.recordWritten && !f.recordSynced))
         && (outcome == Refused(IdentityCollision) <==> NamesRecord(f) && f.recordBarrier && !f.published && withdrawn && f.nameTaken)
         && (outcome == Refused(RenameFailed) <==>
              synced && if f.recordNamed then f.recordBarrier && !f.published && withdrawn && !f.nameTaken else true)
         && (outcome == Latched(RecoveryFailed) <==> Published(f) && f.targetBarrier && !f.markerMatches)
         && (outcome.Latched? && outcome.why != RecoveryFailed ==> outcome.why == RecoveryRequired))
  }

  /** An unfinished build was there to be removed at the end: the merge's own, or an older one that could not
      be removed at the start. */
  predicate Unfinished(view: View, job: Job, f: Fate) {
    f.build.NotCreated? ==> !f.build.cleared && Building(job.plan.target) in view
  }

  /** A merge that answers an error and latches nothing changed no canonical file and left no
      record; and it left an unfinished build if and only if there was one whose removal failed. */
  lemma RefusedMergesTidyUp(view: View, job: Job, f: Fate)
    requires FitsView(job, view) && NoRecord(view) && OutcomeOf(job, f).Refused?
    ensures var after := ViewExec(view, MergeTrace(job, f));
            && NoRecord(after) && Tables(after) == Tables(view)
            && (Building(job.plan.target) in after <==> Unfinished(view, job, f) && !f.abandonRemoves)
  {
    MergeEffects(view, job, f);
    MergeLeaves(view, job, f);
  }
}
