/**
  A merge that an exception leaves part of the way: what the directory then shows, and when that is what the
  catalogue says.
*/
module Thrown {
  import opened Basics
  import opened Disk
  import opened Recovery
  import opened CrashSafety
  import opened Merge
  import opened Settling
  import opened MergeEffect
  import opened Limits
  import opened Chain
  import opened Untouched

  /** Everything before the catalogue is told, when it is. */
  function Prelude(job: Job, f: Fate): seq<Instr> { UpToTheTarget(job, f) + [Barrier] }

  /** `k` steps end before the catalogue is told, or there. */
  predicate Untold(job: Job, f: Fate, k: nat) { k <= |MergeTrace(job, f)| && (Catalogued(f) ==> k <= |Prelude(job, f)|) }

  /** `k` steps end where the catalogue is told, or after. */
  predicate Told(job: Job, f: Fate, k: nat) { Catalogued(f) && |Prelude(job, f)| <= k <= |MergeTrace(job, f)| }

  function CutView(view: View, job: Job, f: Fate, k: nat): View
    requires k <= |MergeTrace(job, f)|
  {
    ViewExec(view, MergeTrace(job, f)[..k])
  }

  lemma {:induction false} SeesAlone(view: View, trace: seq<Instr>, n: Name)
    requires AllLeaveAlone(trace, n)
    ensures n in ViewExec(view, trace) <==> n in view
    ensures n in view ==> ViewExec(view, trace)[n] == view[n]
    decreases |trace|
  {
    if trace != [] {
      SeesAlone(ViewStep(view, trace[0]), trace[1..], n);
    }
  }

  lemma CutLeavesAlone(trace: seq<Instr>, k: nat, n: Name)
    requires AllLeaveAlone(trace, n) && k <= |trace|
    ensures AllLeaveAlone(trace[..k], n)
  {
  }

  // ------------------------------------------------------------------
  // Before the catalogue is told
  // ------------------------------------------------------------------

  /** What follows the naming of the record. */
  function Publication(job: Job, f: Fate): seq<Instr> {
    ([Barrier] + [Link(Building(job.plan.target), Data(job.plan.target))] + Stray(job, f)) + [Barrier]
  }

  lemma PreludeParts(job: Job, f: Fate)
    ensures Prelude(job, f) == NamingTrace(job) + Publication(job, f)
    ensures AllLeaveAlone(Publication(job, f), Record(job.plan.target))
    ensures forall v: nat :: v != job.plan.target ==> AllLeaveAlone(Publication(job, f), Data(v))
  {
  }

  lemma PreludeLeavesAlone(job: Job, f: Fate, v: nat)
    requires v != job.plan.target
    ensures AllLeaveAlone(Prelude(job, f), Data(v))
  {
    PreludeParts(job, f);
    NamingLeavesAlone(job, v);
    LeavesAloneBoth(NamingTrace(job), Publication(job, f), Data(v));
  }

  /** Once the target is published and nothing is told, the steps are those of the prelude. */
  lemma UntoldIsPrelude(job: Job, f: Fate, k: nat)
    requires PublishesTarget(f) && Untold(job, f, k)
    ensures k <= |Prelude(job, f)| && MergeTrace(job, f)[..k] == Prelude(job, f)[..k]
  {
    TraceToTheTarget(job, f);
    if f.targetBarrier {
      ConfirmedTrace(job, f);
    } else {
      assert MergeTrace(job, f) + [Barrier] == Prelude(job, f);
    }
  }

  lemma ConfirmedTrace(job: Job, f: Fate)
    requires PublishesTarget(f) && f.targetBarrier
    ensures MergeTrace(job, f) == Prelude(job, f) + RetireSources(job, f)
  {
    TraceToTheTarget(job, f);
    Regrouped(UpToTheTarget(job, f), [Barrier], RetireSources(job, f));
  }

  lemma UntoldLeavesAlone(job: Job, f: Fate, k: nat, v: nat)
    requires v != job.plan.target && Untold(job, f, k)
    ensures AllLeaveAlone(MergeTrace(job, f)[..k], Data(v))
  {
    if Catalogued(f) {
      UntoldIsPrelude(job, f, k);
      PreludeLeavesAlone(job, f, v);
      CutLeavesAlone(Prelude(job, f), k, Data(v));
    } else {
      UncataloguedLeavesAlone(job, f, v);
      CutLeavesAlone(MergeTrace(job, f), k, Data(v));
    }
  }

  lemma UnpublishedLeavesAlone(job: Job, f: Fate, v: nat)
    requires !PublishesTarget(f)
    ensures AllLeaveAlone(MergeTrace(job, f), Data(v))
  {
    if NamesRecord(f) {
      TraceOfNaming(job, f);
      NamingLeavesAlone(job, v);
      WithdrawLeavesAlone(job, f, v);
      assert AllLeaveAlone(ConfirmRecord(job, f), Data(v));
      LeavesAloneBoth(NamingTrace(job), ConfirmRecord(job, f), Data(v));
    } else {
      UnnamedIsHarmless(job, f);
      HarmlessLeavesAlone(MergeTrace(job, f), v);
    }
  }

  /** Named, the record stays as long as the catalogue is not told. */
  lemma PreludeKeepsRecord(view: View, job: Job, f: Fate, k: nat)
    requires |NamingTrace(job)| <= k <= |Prelude(job, f)|
    ensures Record(job.plan.target) in ViewExec(view, Prelude(job, f)[..k])
    ensures ViewExec(view, Prelude(job, f)[..k])[Record(job.plan.target)] == Sidecar(job.plan)
  {
    var j, n := k - |NamingTrace(job)|, Record(job.plan.target);
    PreludeParts(job, f);
    assert Prelude(job, f)[..k] == NamingTrace(job) + Publication(job, f)[..j];
    ViewExecConcat(view, NamingTrace(job), Publication(job, f)[..j]);
    NamingSees(view, job);
    CutLeavesAlone(Publication(job, f), j, n);
    SeesAlone(ViewExec(view, NamingTrace(job)), Publication(job, f)[..j], n);
  }

  /** A target that has its name has its record beside it. */
  lemma TargetHasRecord(view: View, job: Job, f: Fate, k: nat)
    requires Untold(job, f, k) && Data(job.plan.target) !in view
    ensures Data(job.plan.target) in CutView(view, job, f, k) ==> Record(job.plan.target) in CutView(view, job, f, k)
  {
    var t := job.plan.target;
    if !PublishesTarget(f) {
      UnpublishedLeavesAlone(job, f, t);
      CutLeavesAlone(MergeTrace(job, f), k, Data(t));
      SeesAlone(view, MergeTrace(job, f)[..k], Data(t));
    } else {
      UntoldIsPrelude(job, f, k);
      if k >= |NamingTrace(job)| {
        PreludeKeepsRecord(view, job, f, k);
      } else {
        PreludeParts(job, f);
        assert Prelude(job, f)[..k] == NamingTrace(job)[..k];
        NamingLeavesAlone(job, t);
        CutLeavesAlone(NamingTrace(job), k, Data(t));
        SeesAlone(view, NamingTrace(job)[..k], Data(t));
      }
    }
  }

  /** A file shows these entries under its canonical name. */
  predicate ShowsAs(view: View, v: nat, t: Table) {
    Data(v) in view && view[Data(v)].Rows? && view[Data(v)].table == t
  }

  /** Before the catalogue is told every canonical file is as it was, and unless a record is named there is no other. */
  lemma UntoldShows(view: View, job: Job, f: Fate, k: nat)
    requires FitsView(job, view) && Untold(job, f, k)
    ensures var after := CutView(view, job, f, k);
            && (forall v :: v in Tables(view) ==> ShowsAs(after, v, Tables(view)[v]))
            && (NoRecord(after) ==> Tables(after) == Tables(view))
  {
    var after, t := CutView(view, job, f, k), job.plan.target;
    forall v: nat | v != t ensures (Data(v) in after <==> Data(v) in view) && (Data(v) in view ==> after[Data(v)] == view[Data(v)]) {
      UntoldLeavesAlone(job, f, k, v);
      SeesAlone(view, MergeTrace(job, f)[..k], Data(v));
    }
    TargetHasRecord(view, job, f, k);
    TablesOf(view);
    TablesOf(after);
  }

  // ------------------------------------------------------------------
  // After the catalogue is told
  // ------------------------------------------------------------------

  lemma PreludeSees(view: View, job: Job, f: Fate)
    requires NoRecord(view) && PublishesTarget(f)
    ensures SameData(view[Data(job.plan.target) := Target(job)], ViewExec(view, Prelude(job, f)))
  {
    var g := f.(targetBarrier := true, markerMatches := false);
    ConfirmedTrace(job, g);
    assert MergeTrace(job, g) == Prelude(job, g) + [] == Prelude(job, f);
    TraceOfNaming(job, g);
    ViewExecConcat(view, NamingTrace(job), ConfirmRecord(job, g));
    NamingUnderway(view, job);
    var v := ViewExec(view, NamingTrace(job));
    PublishedSees(v, view, job, g);
    var d :| Doubled(d, view, job) && ViewExec(v, ConfirmRecord(job, g)) == ViewExec(d, ConfirmTarget(job, g));
    RetiredSees(d, view, job, g);
  }

  lemma ToldCut(view: View, job: Job, f: Fate, k: nat)
    requires Told(job, f, k)
    ensures k - |Prelude(job, f)| <= |RetireSources(job, f)|
    ensures CutView(view, job, f, k) == ViewExec(ViewExec(view, Prelude(job, f)), RetireSources(job, f)[..k - |Prelude(job, f)|])
  {
    var j := k - |Prelude(job, f)|;
    ConfirmedTrace(job, f);
    assert MergeTrace(job, f)[..k] == Prelude(job, f) + RetireSources(job, f)[..j];
    ViewExecConcat(view, Prelude(job, f), RetireSources(job, f)[..j]);
  }

  /** After the catalogue is told, what it names is there: the target with every entry, and what was not a source. */
  lemma ToldShows(view: View, job: Job, f: Fate, k: nat)
    requires FitsView(job, view) && NoRecord(view) && Told(job, f, k)
    ensures var whole := Replaced(Tables(view), job.plan.sources, job.plan.target);
            forall v :: v in whole ==> ShowsAs(CutView(view, job, f, k), v, whole[v])
  {
    var whole := Replaced(Tables(view), job.plan.sources, job.plan.target);
    var p, rest := ViewExec(view, Prelude(job, f)), RetireSources(job, f)[..k - |Prelude(job, f)|];
    ToldCut(view, job, f, k);
    PreludeSees(view, job, f);
    TablesOf(view);
    forall v | v in whole ensures ShowsAs(CutView(view, job, f, k), v, whole[v]) {
      EndLeavesAlone(job, f, v);
      CutLeavesAlone(RetireSources(job, f), k - |Prelude(job, f)|, Data(v));
      SeesAlone(p, rest, Data(v));
    }
  }

  lemma {:induction false} RetireLeavesRecord(sources: seq<nat>, stuck: set<nat>, t: nat)
    ensures AllLeaveAlone(Retire(sources, stuck), Record(t))
  {
    if sources != [] { RetireLeavesRecord(sources[1..], stuck, t); }
  }

  /** The retirement up to the removal of the record. */
  function Retirement(job: Job, f: Fate): seq<Instr> {
    Retire(job.plan.sources, f.stuck) + (if f.retireBarrier then [Barrier] else [])
  }

  lemma RetirementParts(job: Job, f: Fate)
    requires Catalogued(f)
    ensures AllLeaveAlone(Retirement(job, f), Record(job.plan.target))
    ensures RetireSources(job, f) == Retirement(job, f) + (if AllRetired(job, f) then RemoveRecord(job, f) else [])
  {
    RetireLeavesRecord(job.plan.sources, f.stuck, job.plan.target);
    LeavesAloneBoth(Retire(job.plan.sources, f.stuck), if f.retireBarrier then [Barrier] else [], Record(job.plan.target));
  }

  lemma CutInFirst(a: seq<Instr>, b: seq<Instr>, j: nat)
    requires j <= |a|
    ensures (a + b)[..j] == a[..j]
  {
  }

  lemma RecordUntilRemoved(view: View, job: Job, f: Fate, k: nat)
    requires Told(job, f, k) && k - |Prelude(job, f)| <= |Retirement(job, f)|
    ensures Record(job.plan.target) in CutView(view, job, f, k)
  {
    var j, p := k - |Prelude(job, f)|, ViewExec(view, Prelude(job, f));
    ToldCut(view, job, f, k);
    RetirementParts(job, f);
    CutInFirst(Retirement(job, f), if AllRetired(job, f) then RemoveRecord(job, f) else [], j);
    RecordAfterPrelude(view, job, f);
    RetirementKeepsRecord(p, job, f, j);
  }

  lemma RecordAfterPrelude(view: View, job: Job, f: Fate)
    ensures Record(job.plan.target) in ViewExec(view, Prelude(job, f))
    ensures ViewExec(view, Prelude(job, f))[Record(job.plan.target)] == Sidecar(job.plan)
  {
    assert Prelude(job, f)[..|Prelude(job, f)|] == Prelude(job, f);
    PreludeKeepsRecord(view, job, f, |Prelude(job, f)|);
  }

  lemma RetirementKeepsRecord(p: View, job: Job, f: Fate, j: nat)
    requires Catalogued(f) && j <= |Retirement(job, f)| && Record(job.plan.target) in p
    ensures Record(job.plan.target) in ViewExec(p, Retirement(job, f)[..j])
  {
    RetirementParts(job, f);
    CutLeavesAlone(Retirement(job, f), j, Record(job.plan.target));
    SeesAlone(p, Retirement(job, f)[..j], Record(job.plan.target));
  }

  lemma AllButTheBarrier(view: View, whole: seq<Instr>, before: seq<Instr>, i: Instr, tail: seq<Instr>, k: nat)
    requires whole == before + ([i] + tail) && |before| < k <= |whole| && (tail == [] || tail == [Barrier])
    ensures ViewExec(view, whole[..k]) == ViewExec(view, whole)
  {
    if k < |whole| {
      assert whole == whole[..k] + [Barrier];
      ViewExecConcat(view, whole[..k], [Barrier]);
      assert [Barrier] == [Barrier] + [];
      ViewExecCons(ViewExec(view, whole[..k]), Barrier, []);
    } else {
      assert whole[..k] == whole;
    }
  }

  lemma RemovalTrace(job: Job, f: Fate)
    requires Catalogued(f) && |MergeTrace(job, f)| > |Prelude(job, f)| + |Retirement(job, f)|
    ensures OutcomeOf(job, f).Merged?
    ensures MergeTrace(job, f) == (Prelude(job, f) + Retirement(job, f))
                                  + ([Unlink(Record(job.plan.target))] + (if f.finalBarrier then [Barrier] else []))
  {
    ConfirmedTrace(job, f);
    RetirementParts(job, f);
    Regrouped(Prelude(job, f), Retirement(job, f), if AllRetired(job, f) then RemoveRecord(job, f) else []);
  }

  /** The record gone, all that can be missing is the barrier after its removal. */
  lemma PastTheRemoval(view: View, job: Job, f: Fate, k: nat)
    requires Told(job, f, k) && k - |Prelude(job, f)| > |Retirement(job, f)|
    ensures OutcomeOf(job, f).Merged? && CutView(view, job, f, k) == ViewExec(view, MergeTrace(job, f))
  {
    RemovalTrace(job, f);
    AllButTheBarrier(view, MergeTrace(job, f), Prelude(job, f) + Retirement(job, f), Unlink(Record(job.plan.target)),
                     if f.finalBarrier then [Barrier] else [], k);
  }

  /** Unless the record is still named, the canonical files are exactly those the catalogue now names. */
  lemma ToldTables(view: View, job: Job, f: Fate, k: nat)
    requires FitsView(job, view) && NoRecord(view) && Told(job, f, k) && NoRecord(CutView(view, job, f, k))
    ensures Tables(CutView(view, job, f, k)) == Replaced(Tables(view), job.plan.sources, job.plan.target)
  {
    if k - |Prelude(job, f)| <= |Retirement(job, f)| {
      RecordUntilRemoved(view, job, f, k);
    } else {
      PastTheRemoval(view, job, f, k);
      MergeEffects(view, job, f);
    }
  }

  // ------------------------------------------------------------------
  // What is written above a merge in flight
  // ------------------------------------------------------------------

  lemma TheRecordSupersedes(view: View, plan: Plan, v: nat)
    requires RecordsOk(view) && Record(plan.target) in view && view[Record(plan.target)] == Sidecar(plan) && Data(plan.target) in view
    ensures Superseded(view, v) <==> v in plan.sources
  {
    if v in plan.sources { assert SupersededBy(view, plan.target, v); }
  }

  /** The target published and its record named: what a canonical file is made to hold is there after the next opening
      if and only if the file is not a source. */
  lemma WrittenThenReopened(view: View, plan: Plan, v: nat, content: Content)
    requires RecordsOk(view) && Record(plan.target) in view && view[Record(plan.target)] == Sidecar(plan)
    requires |plan.sources| <= MAX_SOURCES && Data(plan.target) in view && Data(v) in view && v != plan.target && content.Rows?
    ensures var written := view[Data(v) := content];
            && RecordsOk(written) && RecoveryTrace(written).Some?
            && var after := ViewExec(written, RecoveryTrace(written).value);
               && (v in Tables(after) <==> v !in plan.sources) && (v in Tables(after) ==> Tables(after)[v] == content.table)
               && (forall w :: w in Tables(after) <==> w in Tables(written) && w !in plan.sources)
               && (forall w :: w in Tables(after) ==> Tables(after)[w] == Tables(written)[w])
  {
    var written := view[Data(v) := content];
    RecoveryRuns(written);
    RecoverySettles(written);
    TablesOf(written);
    forall w: nat ensures Superseded(written, w) <==> w in plan.sources { TheRecordSupersedes(written, plan, w); }
  }

  /** The record named and nothing published: a file that takes the target's name keeps the store from opening, unless it
      bears the identifier of the merge. */
  lemma NameTakenThenReopened(view: View, plan: Plan, content: Content)
    requires RecordsOk(view) && Record(plan.target) in view && view[Record(plan.target)] == Sidecar(plan)
    requires |plan.sources| <= MAX_SOURCES && content.Rows?
    ensures RecoveryTrace(view[Data(plan.target) := content]).Some? <==> content.marker == Some(plan.id)
  {
    var written := view[Data(plan.target) := content];
    OneRecord(view);
    SameRecords(view, plan.target, content);
    OneToSettle(written, plan);
  }

  lemma SameRecords(view: View, v: nat, content: Content)
    ensures Records(view[Data(v) := content]) == Records(view)
  {
    RecordsAreNamed(view);
    RecordsAreNamed(view[Data(v) := content]);
  }

  lemma OneToSettle(view: View, plan: Plan)
    requires Listed(Records(view)) == [plan.target] && Record(plan.target) in view && view[Record(plan.target)] == Sidecar(plan)
    requires Readable(view[Record(plan.target)], plan.target)
    ensures RecoveryTrace(view).Some? <==> RecoverOne(view, plan).Some?
  {
  }
}
