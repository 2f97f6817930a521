/**
  What a merge leaves visible, for each of its outcomes: the canonical files, and whether
  a record is still in flight.
*/
module MergeEffect {
  import opened Basics
  import opened Disk
  import opened Recovery
  import opened CrashSafety
  import opened Merge
  import opened Settling

  ghost predicate SameData(a: View, b: View) {
    forall v :: (Data(v) in a <==> Data(v) in b) && (Data(v) in a ==> a[Data(v)] == b[Data(v)])
  }

  ghost predicate NoRecord(view: View) {
    forall t :: Record(t) !in view
  }

  ghost predicate OnlyRecord(view: View, t: nat) {
    forall u :: Record(u) in view ==> u == t
  }

  /** The steps up to and including the rename that names the record. */
  function NamingTrace(job: Job): seq<Instr> {
    var t := job.plan.target;
    [Unlink(Building(t)), Create(Building(t), Target(job)), Fsync(Building(t)),
     Create(RecordTmp(t), Sidecar(job.plan)), Fsync(RecordTmp(t)), Rename(RecordTmp(t), Record(t))]
  }

  predicate NamesRecord(f: Fate) {
    f.build == Built && f.contentSynced && f.recordWritten && f.recordSynced && f.recordNamed
  }

  lemma TraceOfNaming(job: Job, f: Fate)
    requires NamesRecord(f)
    ensures MergeTrace(job, f) == NamingTrace(job) + ConfirmRecord(job, f)
  {
    var t := job.plan.target;
    assert MergeTrace(job, f) == [Unlink(Building(t))] + ([Create(Building(t), Target(job))] + ([Fsync(Building(t))] +
      ([Create(RecordTmp(t), Sidecar(job.plan))] + ([Fsync(RecordTmp(t))] + ([Rename(RecordTmp(t), Record(t))] + ConfirmRecord(job, f))))));
    SixThenRest(Unlink(Building(t)), Create(Building(t), Target(job)), Fsync(Building(t)), Create(RecordTmp(t), Sidecar(job.plan)),
                Fsync(RecordTmp(t)), Rename(RecordTmp(t), Record(t)), ConfirmRecord(job, f));
  }

  lemma SixThenRest(a: Instr, b: Instr, c: Instr, d: Instr, e: Instr, h: Instr, rest: seq<Instr>)
    ensures [a] + ([b] + ([c] + ([d] + ([e] + ([h] + rest))))) == [a, b, c, d, e, h] + rest
  {
  }

  function BeforeNaming(view: View, job: Job): View {
    var t := job.plan.target;
    (view - {Building(t)})[Building(t) := Target(job)][RecordTmp(t) := Sidecar(job.plan)] - {RecordTmp(t)}
  }

  lemma NamingSees(view: View, job: Job)
    ensures ViewExec(view, NamingTrace(job)) == BeforeNaming(view, job)[Record(job.plan.target) := Sidecar(job.plan)]
  {
    var t := job.plan.target;
    var trace := NamingTrace(job);
    var v1 := view - {Building(t)};
    var v2 := v1[Building(t) := Target(job)];
    var v3 := v2[RecordTmp(t) := Sidecar(job.plan)];
    var t1 := [Rename(RecordTmp(t), Record(t))];
    var t2 := [Fsync(RecordTmp(t))] + t1;
    var t3 := [Create(RecordTmp(t), Sidecar(job.plan))] + t2;
    var t4 := [Fsync(Building(t))] + t3;
    var t5 := [Create(Building(t), Target(job))] + t4;
    assert trace == [Unlink(Building(t))] + t5;
    ViewExecCons(view, Unlink(Building(t)), t5);
    ViewExecCons(v1, Create(Building(t), Target(job)), t4);
    ViewExecCons(v2, Fsync(Building(t)), t3);
    ViewExecCons(v2, Create(RecordTmp(t), Sidecar(job.plan)), t2);
    ViewExecCons(v3, Fsync(RecordTmp(t)), t1);
    assert t1 == [Rename(RecordTmp(t), Record(t))] + [];
    ViewExecCons(v3, Rename(RecordTmp(t), Record(t)), []);
  }

  lemma {:induction false} HarmlessSees(view: View, trace: seq<Instr>)
    requires forall i :: 0 <= i < |trace| ==> Harmless(trace[i]) || trace[i].Barrier?
    ensures SameMeaning(view, ViewExec(view, trace))
    decreases |trace|
  {
    if trace != [] {
      HarmlessSees(ViewStep(view, trace[0]), trace[1..]);
    }
  }

  /** A merge that named no record changed nothing that carries meaning. */
  lemma UnnamedSees(view: View, job: Job, f: Fate)
    requires !NamesRecord(f)
    ensures SameMeaning(view, ViewExec(view, MergeTrace(job, f)))
  {
    assert forall i :: 0 <= i < |DiscardTemp(job, f)| ==> Harmless(DiscardTemp(job, f)[i]);
    if f.build == Built && f.contentSynced {
      assert forall i :: 0 <= i < |WriteRecord(job, f)| ==> Harmless(WriteRecord(job, f)[i]);
    }
    assert forall i :: 0 <= i < |BuildTarget(job, f)| ==> Harmless(BuildTarget(job, f)[i]);
    HarmlessSees(view, MergeTrace(job, f));
  }

  /** The view once the record has its name: what the rest of a merge starts from. */
  ghost predicate Underway(v: View, view: View, job: Job) {
    && SameData(view, v) && OnlyRecord(v, job.plan.target)
    && Record(job.plan.target) in v && v[Record(job.plan.target)] == Sidecar(job.plan)
    && Building(job.plan.target) in v && v[Building(job.plan.target)] == Target(job)
  }

  lemma NamingUnderway(view: View, job: Job)
    requires NoRecord(view)
    ensures Underway(ViewExec(view, NamingTrace(job)), view, job)
  {
    NamingSees(view, job);
  }

  /** The merge went as far as taking the sources out of the catalogue. */
  predicate Catalogued(f: Fate) {
    NamesRecord(f) && f.recordBarrier && f.published && f.targetBarrier && f.markerMatches
  }

  lemma UnpublishedSees(v: View, view: View, job: Job, f: Fate)
    requires Underway(v, view, job) && !(f.recordBarrier && f.published)
    ensures var after := ViewExec(v, ConfirmRecord(job, f));
            && SameData(view, after) && OnlyRecord(after, job.plan.target)
            && (f.recordBarrier && f.recordWithdrawn && f.withdrawBarrier ==> NoRecord(after))
  {
    var t := job.plan.target;
    if f.recordBarrier {
      ViewExecCons(v, Barrier, Publish(job, f));
      if f.recordWithdrawn {
        var tail := if f.withdrawBarrier then [Barrier] + Abandon(job, f) else [];
        ViewExecCons(v, Unlink(Record(t)), tail);
        HarmlessSees(v - {Record(t)}, tail);
      }
    } else {
      var tidy := if f.recordTidied then [Unlink(Record(t))] else [];
      ViewExecConcat(v, Abandon(job, f), tidy);
      HarmlessSees(v, Abandon(job, f));
      var e := ViewExec(v, Abandon(job, f));
      if f.recordTidied {
        assert tidy == [Unlink(Record(t))] + [];
        ViewExecCons(e, Unlink(Record(t)), []);
      }
    }
  }

  /** The canonical files with the target published and no source retired yet. */
  ghost predicate Doubled(v: View, view: View, job: Job) {
    && SameData(view[Data(job.plan.target) := Target(job)], v)
    && OnlyRecord(v, job.plan.target)
  }

  lemma PublishedSees(v: View, view: View, job: Job, f: Fate)
    requires Underway(v, view, job) && f.recordBarrier && f.published
    ensures exists d :: Doubled(d, view, job) && ViewExec(v, ConfirmRecord(job, f)) == ViewExec(d, ConfirmTarget(job, f))
  {
    var t := job.plan.target;
    ViewExecCons(v, Barrier, Publish(job, f));
    ViewExecCons(v, Link(Building(t), Data(t)), ClearStray(job, f));
    var linked := v[Data(t) := Target(job)];
    if f.strayRemoved {
      ViewExecCons(linked, Unlink(Building(t)), ConfirmTarget(job, f));
      assert Doubled(linked - {Building(t)}, view, job);
    } else {
      assert [] + ConfirmTarget(job, f) == ConfirmTarget(job, f);
      assert Doubled(linked, view, job);
    }
  }

  /** The canonical files after the removals that worked. */
  function Retired(view: View, job: Job, stuck: set<nat>): View {
    view[Data(job.plan.target) := Target(job)] - (set s | s in job.plan.sources && s !in stuck :: Data(s))
  }

  lemma RetiredSees(d: View, view: View, job: Job, f: Fate)
    requires Doubled(d, view, job)
    ensures var after := ViewExec(d, ConfirmTarget(job, f));
            && OnlyRecord(after, job.plan.target)
            && (!(f.targetBarrier && f.markerMatches) ==> SameData(view[Data(job.plan.target) := Target(job)], after))
            && (f.targetBarrier && f.markerMatches ==> SameData(Retired(view, job, f.stuck), after))
            && (f.targetBarrier && f.markerMatches && AllRetired(job, f) && f.recordRemoved ==> NoRecord(after))
  {
    var t := job.plan.target;
    if f.targetBarrier {
      ViewExecCons(d, Barrier, RetireSources(job, f));
      if f.markerMatches {
        var retire := Retire(job.plan.sources, f.stuck);
        ViewExecConcat(d, retire, ConfirmRetired(job, f));
        RetireSees(d, job.plan.sources, f.stuck);
        var e := ViewExec(d, retire);
        if f.retireBarrier {
          var rest := if AllRetired(job, f) then RemoveRecord(job, f) else [];
          ViewExecCons(e, Barrier, rest);
          if AllRetired(job, f) && f.recordRemoved {
            var tail := if f.finalBarrier then [Barrier] else [];
            ViewExecCons(e, Unlink(Record(t)), tail);
            HarmlessSees(e - {Record(t)}, tail);
          }
        }
      }
    }
  }

  lemma TablesOf(view: View)
    ensures forall v :: v in Tables(view) <==> Data(v) in view && view[Data(v)].Rows?
    ensures forall v :: v in Tables(view) ==> Tables(view)[v] == view[Data(v)].table
  {
    forall v ensures v in DataVersions(view) <==> Data(v) in view {}
  }

  /** The tables of the catalogued versions. */
  function Catalogue(ts: map<nat, Table>, versions: set<nat>): map<nat, Table> {
    map v | v in versions && v in ts :: ts[v]
  }

  lemma PublishedTables(view: View, after: View, job: Job)
    requires SameData(view[Data(job.plan.target) := Target(job)], after)
    requires Data(job.plan.target) !in view
    ensures Tables(after) == Tables(view)[job.plan.target := job.merged]
  {
    TablesOf(view);
    TablesOf(after);
    SameTables(view[Data(job.plan.target) := Target(job)], after);
    TablesOf(view[Data(job.plan.target) := Target(job)]);
  }

  lemma RetiredTables(view: View, after: View, job: Job, stuck: set<nat>)
    requires SameData(Retired(view, job, stuck), after)
    requires FitsView(job, view)
    ensures forall v :: v in Tables(after) <==> v == job.plan.target || (v in Tables(view) && (v in job.plan.sources ==> v in stuck))
    ensures forall v :: v in Tables(after) && v != job.plan.target ==> Tables(after)[v] == Tables(view)[v]
    ensures job.plan.target in Tables(after) && Tables(after)[job.plan.target] == job.merged
  {
    var mid := view[Data(job.plan.target) := Target(job)];
    TablesOf(view);
    TablesOf(after);
    SameTables(Retired(view, job, stuck), after);
    var gone := set s | s in job.plan.sources && s !in stuck :: Data(s);
    forall v ensures Data(v) in gone <==> v in job.plan.sources && v !in stuck {}
    assert forall v :: Data(v) in after <==> Data(v) in mid && Data(v) !in gone;
  }

  /** How a merge can end. A refused one left the canonical files alone and no record; a
      completed one replaced its sources by one file holding their entries and left no record;
      a latched one left the files its catalogue still names with all the entries. */
  ghost predicate Effects(after: View, view: View, job: Job, f: Fate)
    requires FitsView(job, view)
  {
    var whole := Replaced(Tables(view), job.plan.sources, job.plan.target);
    && OnlyRecord(after, job.plan.target)
    && (OutcomeOf(job, f).Refused? ==> NoRecord(after) && Tables(after) == Tables(view))
    && (OutcomeOf(job, f).Merged? ==> NoRecord(after) && Tables(after) == whole)
    && (Catalogued(f) ==> Catalogue(Tables(after), whole.Keys) == whole)
    && (!Catalogued(f) ==> Catalogue(Tables(after), Tables(view).Keys) == Tables(view))
  }

  lemma UnnamedEffects(view: View, job: Job, f: Fate)
    requires FitsView(job, view) && NoRecord(view) && !NamesRecord(f)
    ensures Effects(ViewExec(view, MergeTrace(job, f)), view, job, f)
  {
    UnnamedSees(view, job, f);
    SameMeaningSameEffect(view, ViewExec(view, MergeTrace(job, f)));
  }

  lemma UnpublishedEffects(v: View, view: View, job: Job, f: Fate)
    requires FitsView(job, view) && NamesRecord(f) && Underway(v, view, job)
    requires !(f.recordBarrier && f.published)
    ensures Effects(ViewExec(v, ConfirmRecord(job, f)), view, job, f)
  {
    UnpublishedSees(v, view, job, f);
    SameTables(view, ViewExec(v, ConfirmRecord(job, f)));
  }

  lemma UnconfirmedEffects(after: View, view: View, job: Job, f: Fate)
    requires FitsView(job, view) && NamesRecord(f) && f.recordBarrier && f.published
    requires !(f.targetBarrier && f.markerMatches)
    requires SameData(view[Data(job.plan.target) := Target(job)], after) && OnlyRecord(after, job.plan.target)
    ensures Effects(after, view, job, f)
  {
    PublishedTables(view, after, job);
    TablesOf(view);
  }

  lemma RetiredEffects(after: View, view: View, job: Job, f: Fate)
    requires FitsView(job, view) && Catalogued(f)
    requires SameData(Retired(view, job, f.stuck), after) && OnlyRecord(after, job.plan.target)
    requires AllRetired(job, f) && f.recordRemoved ==> NoRecord(after)
    ensures Effects(after, view, job, f)
  {
    var whole := Replaced(Tables(view), job.plan.sources, job.plan.target);
    RetiredTables(view, after, job, f.stuck);
    assert Catalogue(Tables(after), whole.Keys) == whole;
    if OutcomeOf(job, f).Merged? {
      forall v ensures v in Tables(after) <==> v in whole {}
    }
  }

  lemma MergeEffects(view: View, job: Job, f: Fate)
    requires FitsView(job, view) && NoRecord(view)
    ensures Effects(ViewExec(view, MergeTrace(job, f)), view, job, f)
  {
    if !NamesRecord(f) {
      UnnamedEffects(view, job, f);
    } else {
      var v := ViewExec(view, NamingTrace(job));
      NamingUnderway(view, job);
      TraceOfNaming(job, f);
      ViewExecConcat(view, NamingTrace(job), ConfirmRecord(job, f));
      if f.recordBarrier && f.published {
        PublishedSees(v, view, job, f);
        var d :| Doubled(d, view, job) && ViewExec(v, ConfirmRecord(job, f)) == ViewExec(d, ConfirmTarget(job, f));
        RetiredSees(d, view, job, f);
        if f.targetBarrier && f.markerMatches {
          RetiredEffects(ViewExec(d, ConfirmTarget(job, f)), view, job, f);
        } else {
          UnconfirmedEffects(ViewExec(d, ConfirmTarget(job, f)), view, job, f);
        }
      } else {
        UnpublishedEffects(v, view, job, f);
      }
    }
  }
}
