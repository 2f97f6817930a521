/**
  Recovery interrupted by the power: whatever part of its removals survived, recovery run again ends with
  the files it would have ended with, and it removes a source only on the evidence of its own target.
*/
module Confluence {
  import opened Basics
  import opened Disk
  import opened Recovery
  import opened CrashSafety
  import opened Merge
  import opened MergeEffect
  import opened Settling

  // ------------------------------------------------------------------
  // What a power cut leaves of removals
  // ------------------------------------------------------------------

  /** The names a trace removes. */
  function Gone(trace: seq<Instr>): set<Name> {
    set i | 0 <= i < |trace| && trace[i].Unlink? :: trace[i].name
  }

  /** Those it removed before its last barrier. */
  function Confirmed(trace: seq<Instr>): set<Name> {
    if trace == [] then {}
    else if trace[|trace| - 1].Barrier? then Gone(trace)
    else Confirmed(trace[..|trace| - 1])
  }

  lemma GoneSnoc(trace: seq<Instr>, i: Instr)
    ensures Gone(trace + [i]) == Gone(trace) + (if i.Unlink? then {i.name} else {})
    ensures Confirmed(trace + [i]) == if i.Barrier? then Gone(trace) else Confirmed(trace)
  {
    var more := trace + [i];
    assert more[..|trace|] == trace;
    forall n ensures n in Gone(more) <==> n in Gone(trace) || (i.Unlink? && n == i.name) {
      if n in Gone(trace) {
        var j :| 0 <= j < |trace| && trace[j].Unlink? && trace[j].name == n;
        assert more[j] == trace[j];
      }
      if i.Unlink? && n == i.name { assert more[|trace|] == i; }
    }
  }

  lemma GoneOf(a: seq<Instr>, b: seq<Instr>)
    requires a <= b
    ensures Gone(a) <= Gone(b)
  {
    forall n | n in Gone(a) ensures n in Gone(b) {
      var j :| 0 <= j < |a| && a[j].Unlink? && a[j].name == n;
      assert b[j] == a[j];
    }
  }

  /** The directory without some names between those confirmed gone and those removed at all. */
  ghost predicate Between(start: Dir, trace: seq<Instr>, dir: Dir) {
    exists gone: set<Name> :: Confirmed(trace) <= gone <= Gone(trace) && dir == start - gone
  }

  ghost predicate Thinned(model: CrashModel, d: Disk, trace: seq<Instr>)
    requires WellFormed(d)
  {
    var e := Exec(d, trace);
    && e.inodes == d.inodes && Visible(e) == d.durable - Gone(trace)
    && forall dir :: Possible(model, e, dir) ==> Between(d.durable, trace, dir)
  }

  lemma ThinnedUnlink(model: CrashModel, d: Disk, init: seq<Instr>, n: Name)
    requires WellFormed(d) && Thinned(model, d, init) && Exec(d, init + [Unlink(n)]) == Step(Exec(d, init), Unlink(n))
    ensures Thinned(model, d, init + [Unlink(n)])
  {
    var e, trace := Exec(d, init), init + [Unlink(n)];
    GoneSnoc(init, Unlink(n));
    assert d.durable - Gone(init) - {n} == d.durable - Gone(trace);
    if n in Visible(e) {
      VisibleAfter(e, Drop(n));
      forall dir | Possible(model, Step(e, Unlink(n)), dir) ensures Between(d.durable, trace, dir) {
        var prev := PossibleAfter(model, e, Drop(n), dir);
        if !Possible(model, e, dir) { LiveIsPossible(model, e, prev); }
        var before := if Possible(model, e, dir) then dir else prev;
        assert Between(d.durable, init, before);
        var gone: set<Name> :| Confirmed(init) <= gone <= Gone(init) && before == d.durable - gone;
        var more := if Possible(model, e, dir) then gone else gone + {n};
        assert dir == d.durable - more && Confirmed(trace) <= more <= Gone(trace);
      }
    } else {
      forall dir | Possible(model, e, dir) ensures Between(d.durable, trace, dir) {
        assert Between(d.durable, init, dir);
        var gone: set<Name> :| Confirmed(init) <= gone <= Gone(init) && dir == d.durable - gone;
        assert Confirmed(trace) <= gone <= Gone(trace);
      }
    }
  }

  lemma ThinnedBarrier(model: CrashModel, d: Disk, init: seq<Instr>)
    requires WellFormed(d) && Thinned(model, d, init) && Exec(d, init + [Barrier]) == Step(Exec(d, init), Barrier)
    ensures Thinned(model, d, init + [Barrier])
  {
    var e, trace := Exec(d, init), init + [Barrier];
    GoneSnoc(init, Barrier);
    forall dir | Possible(model, Step(e, Barrier), dir) ensures Between(d.durable, trace, dir) {
      assert dir == Visible(e);
      assert Confirmed(trace) <= Gone(trace) <= Gone(trace) && dir == d.durable - Gone(trace);
    }
  }

  /** Removals cut by the power, from a directory with nothing pending. */
  lemma {:induction false} RemovalsThin(model: CrashModel, d: Disk, trace: seq<Instr>)
    requires WellFormed(d) && d.pending == [] && AllRemove(trace)
    ensures Thinned(model, d, trace)
    decreases |trace|
  {
    if trace == [] {
      assert d.durable - {} == d.durable;
      forall dir | Possible(model, d, dir) ensures Between(d.durable, trace, dir) {
        assert Confirmed(trace) <= {} <= Gone(trace) && dir == d.durable - {};
      }
    } else {
      var init, last := trace[..|trace| - 1], trace[|trace| - 1];
      assert trace == init + [last];
      RemovalsThin(model, d, init);
      ExecConcat(d, init, [last]);
      assert [last] == [last] + [];
      ExecCons(Exec(d, init), last, []);
      assert Removes(last);
      if last.Unlink? { ThinnedUnlink(model, d, init, last.name); } else { ThinnedBarrier(model, d, init); }
    }
  }

  // ------------------------------------------------------------------
  // What may be missing without changing what counts
  // ------------------------------------------------------------------

  /** Nothing that counts is gone, and a record only with everything it supersedes. */
  ghost predicate Redundant(view: View, gone: set<Name>) {
    && (forall v: nat :: Data(v) in gone && Data(v) in view ==> Superseded(view, v))
    && (forall t, s: nat :: Record(t) in gone && SupersededBy(view, t, s) && Data(s) in view ==> Data(s) in gone)
  }

  lemma RedundantKeeps(view: View, gone: set<Name>)
    requires RecordsOk(view) && Redundant(view, gone)
    ensures RecordsOk(view - gone) && Effective(view - gone) == Effective(view)
  {
    var left := view - gone;
    TablesOf(view);
    TablesOf(left);
    forall t | Record(t) in left ensures Record(t) in view && left[Record(t)] == view[Record(t)] {}
    forall v | v in Tables(left) ensures v in Tables(view) && Tables(left)[v] == Tables(view)[v] && (Superseded(left, v) <==> Superseded(view, v)) {
      if t :| SupersededBy(left, t, v) { assert SupersededBy(view, t, v); }
      if t :| SupersededBy(view, t, v) { StillSuperseded(view, gone, t, v); }
    }
    forall v | v in Tables(view) && !Superseded(view, v) ensures v in Tables(left) {
      assert Data(v) in view;
    }
  }

  /** What a record supersedes and is still there, it still supersedes. */
  lemma StillSuperseded(view: View, gone: set<Name>, t: nat, v: nat)
    requires RecordsOk(view) && Redundant(view, gone) && SupersededBy(view, t, v) && Data(v) in view - gone
    ensures SupersededBy(view - gone, t, v)
  {
    assert Record(t) !in gone;
  }

  // ------------------------------------------------------------------
  // What recovery removes, and when
  // ------------------------------------------------------------------

  /** The only removals that matter: the sources of a record whose target bears its identifier, and that record
      once they are confirmed gone; or the record of a target that was never published. */
  ghost predicate Orderly(view: View, trace: seq<Instr>) {
    && AllRemove(trace)
    && (forall v: nat :: Data(v) in Gone(trace) ==> exists t :: Vouched(view, t) && v in view[Record(t)].plan.sources)
    && (forall t, s: nat :: Record(t) in Gone(trace) && SupersededBy(view, t, s) ==> Data(s) in Confirmed(trace))
  }

  /** A record that recovery can read, and a target that bears its identifier. */
  ghost predicate Vouched(view: View, t: nat) {
    && Record(t) in view && Readable(view[Record(t)], t)
    && Data(t) in view && view[Data(t)].Rows? && view[Data(t)].marker == Some(view[Record(t)].plan.id)
  }

  /** A removal that leaves nothing out of order, after these. */
  ghost predicate Permitted(view: View, before: seq<Instr>, i: Instr) {
    Removes(i) && (i.Unlink? ==>
      match i.name
      case Data(v) => exists t :: Vouched(view, t) && v in view[Record(t)].plan.sources
      case Record(t) => forall s :: SupersededBy(view, t, s) ==> Data(s) in Confirmed(before)
      case _ => true)
  }

  lemma OrderlySnoc(view: View, trace: seq<Instr>, i: Instr)
    requires Orderly(view, trace) && Permitted(view, trace, i)
    ensures Orderly(view, trace + [i])
  {
    GoneSnoc(trace, i);
    GoneOf(trace, trace + [i]);
    ConfirmedIsGone(trace);
  }

  lemma {:induction false} ConfirmedIsGone(trace: seq<Instr>)
    ensures Confirmed(trace) <= Gone(trace)
    decreases |trace|
  {
    if trace != [] {
      ConfirmedIsGone(trace[..|trace| - 1]);
      GoneOf(trace[..|trace| - 1], trace);
    }
  }

  lemma {:induction false} OrderlyCut(view: View, trace: seq<Instr>, k: nat)
    requires k <= |trace| && forall j: nat :: j < |trace| ==> Permitted(view, trace[..j], trace[j])
    ensures Orderly(view, trace[..k])
  {
    if k > 0 {
      OrderlyCut(view, trace, k - 1);
      assert trace[..k] == trace[..k - 1] + [trace[k - 1]];
      OrderlySnoc(view, trace[..k - 1], trace[k - 1]);
    }
  }

  lemma {:induction false} RetireIs(sources: seq<nat>)
    ensures Retire(sources, {}) == seq(|sources|, i requires 0 <= i < |sources| => Unlink(Data(sources[i])))
  {
    if sources != [] { RetireIs(sources[1..]); }
  }

  /** The sources of a published merge, then its record. */
  lemma FinishIsPermitted(view: View, t: nat, plan: Plan, j: nat)
    requires Vouched(view, t) && view[Record(t)] == Sidecar(plan) && RecoverOne(view, plan).Some? && j < |RecoverOne(view, plan).value|
    ensures Permitted(view, RecoverOne(view, plan).value[..j], RecoverOne(view, plan).value[j])
  {
    var retire, trace := Retire(plan.sources, {}), RecoverOne(view, plan).value;
    RetireIs(plan.sources);
    if j == |retire| + 1 {
      assert trace[..j] == retire + [Barrier];
      GoneSnoc(retire, Barrier);
      forall s | SupersededBy(view, t, s) ensures Data(s) in Confirmed(trace[..j]) {
        var i :| 0 <= i < |plan.sources| && plan.sources[i] == s;
        assert retire[i] == Unlink(Data(s));
      }
    } else if j < |retire| {
      assert trace[j] == Unlink(Data(plan.sources[j]));
    }
  }

  /** `recover_one` on the one record there is. */
  lemma SettleIsPermitted(view: View, j: nat)
    requires SettleRecord(view).Some? && j < |SettleRecord(view).value|
    ensures Permitted(view, SettleRecord(view).value[..j], SettleRecord(view).value[j])
  {
    var t := Listed(Records(view))[0];
    assert t in Records(view);
    var plan := view[Record(t)].plan;
    if Data(t) in view { FinishIsPermitted(view, t, plan, j); }
  }

  lemma RecoveryIsPermitted(view: View, j: nat)
    requires RecoveryTrace(view).Some? && j < |RecoveryTrace(view).value|
    ensures Permitted(view, RecoveryTrace(view).value[..j], RecoveryTrace(view).value[j])
  {
    var settle := SettleRecord(view).value;
    var strays := Strays(ViewExec(view, settle));
    if j < |settle| {
      assert (settle + Removals(strays))[..j] == settle[..j];
      SettleIsPermitted(view, j);
    } else {
      StraysAreMeaningless(ViewExec(view, settle));
      assert strays[j - |settle|] in strays;
    }
  }

  /** Recovery removes a canonical file only when a record it can read names it, and only when the file at that
      record's target bears the record's identifier. This is so of every directory, however it came about. */
  lemma RetiresOnEvidence(view: View, s: nat)
    requires RecoveryTrace(view).Some? && Unlink(Data(s)) in RecoveryTrace(view).value
    ensures exists t :: Vouched(view, t) && s in view[Record(t)].plan.sources
  {
    var j :| 0 <= j < |RecoveryTrace(view).value| && RecoveryTrace(view).value[j] == Unlink(Data(s));
    RecoveryIsPermitted(view, j);
  }

  // ------------------------------------------------------------------
  // Confluence
  // ------------------------------------------------------------------

  lemma OrderlyIsRedundant(view: View, trace: seq<Instr>, gone: set<Name>)
    requires Orderly(view, trace) && Confirmed(trace) <= gone <= Gone(trace)
    ensures Redundant(view, gone)
  {
    forall v: nat | Data(v) in gone && Data(v) in view ensures Superseded(view, v) {
      var t :| Vouched(view, t) && v in view[Record(t)].plan.sources;
      assert SupersededBy(view, t, v);
    }
  }

  /** What a power cut leaves, in terms of what was there. */
  lemma CutIsThinner(inodes: seq<Inode>, start: Dir, gone: set<Name>, after: seq<Inode>)
    requires InRange(inodes, start) && Pinned(inodes, start) && |after| == |inodes|
    requires forall i :: 0 <= i < |inodes| ==> after[i].synced && (inodes[i].synced ==> after[i] == inodes[i])
    ensures SameMeaning(ViewIn(inodes, start) - gone, ViewIn(after, start - gone))
  {
  }

  lemma NarrowerIsNarrow(a: View, b: View, gone: set<Name>)
    requires NoWiderThan(a, MAX_SOURCES) && SameMeaning(a - gone, b)
    ensures NoWiderThan(b, MAX_SOURCES)
  {
    forall t | Record(t) in b && b[Record(t)].Sidecar? ensures |b[Record(t)].plan.sources| <= MAX_SOURCES {
      assert Record(t) in a && a[Record(t)] == b[Record(t)];
    }
  }

  /** The survivor of a power cut in the middle of a recovery means what the directory meant before. */
  lemma SurvivorMeansTheSame(model: CrashModel, d: Disk, k: nat, after: Disk)
    requires WellFormed(d) && d.pending == [] && Pinned(d.inodes, d.durable)
    requires RecordsOk(ViewOf(d)) && RecoveryTrace(ViewOf(d)).Some? && k <= |RecoveryTrace(ViewOf(d)).value|
    requires PowerCut(model, Exec(d, RecoveryTrace(ViewOf(d)).value[..k]), after)
    ensures WellFormed(after) && after.pending == [] && Pinned(after.inodes, after.durable)
    ensures RecordsOk(ViewOf(after)) && Effective(ViewOf(after)) == Effective(ViewOf(d)) && NoWiderThan(ViewOf(after), MAX_SOURCES)
  {
    var view := ViewOf(d);
    var cut := RecoveryTrace(view).value[..k];
    forall j: nat | j < |RecoveryTrace(view).value| ensures Permitted(view, RecoveryTrace(view).value[..j], RecoveryTrace(view).value[j]) {
      RecoveryIsPermitted(view, j);
    }
    OrderlyCut(view, RecoveryTrace(view).value, k);
    RemovalsThin(model, d, cut);
    assert Between(d.durable, cut, after.durable);
    var gone: set<Name> :| Confirmed(cut) <= gone <= Gone(cut) && after.durable == d.durable - gone;
    OrderlyIsRedundant(view, cut, gone);
    RedundantKeeps(view, gone);
    CutIsThinner(d.inodes, d.durable, gone, after.inodes);
    SameMeaningSameEffect(view - gone, ViewOf(after));
    RecoveryRuns(view);
    NarrowerIsNarrow(view, ViewOf(after), gone);
  }

  /** Confluence under power loss. A recovery on a directory with nothing pending is cut after any step and the
      power goes, with either kind of loss: the survivor can be recovered, and recovery leaves it settled with
      exactly the canonical files the uninterrupted one leaves. */
  lemma ConfluentUnderPowerCuts(model: CrashModel, d: Disk, k: nat, after: Disk)
    requires WellFormed(d) && d.pending == [] && Pinned(d.inodes, d.durable)
    requires RecordsOk(ViewOf(d)) && RecoveryTrace(ViewOf(d)).Some? && k <= |RecoveryTrace(ViewOf(d)).value|
    requires PowerCut(model, Exec(d, RecoveryTrace(ViewOf(d)).value[..k]), after)
    ensures var view, left := ViewOf(d), ViewOf(after);
            && RecoveryTrace(left).Some? && Settled(ViewExec(left, RecoveryTrace(left).value))
            && Tables(ViewExec(left, RecoveryTrace(left).value)) == Tables(ViewExec(view, RecoveryTrace(view).value))
  {
    SurvivorMeansTheSame(model, d, k, after);
    RecoveryRuns(ViewOf(after));
    RecoverySettles(ViewOf(after));
    RecoverySettles(ViewOf(d));
  }

  /** Each disk of the run but the first is what a power cut left of a recovery of the one before. */
  ghost predicate Interrupted(model: CrashModel, ds: seq<Disk>) {
    forall i :: 0 < i < |ds| ==> InterruptedTo(model, ds[i - 1], ds[i])
  }

  ghost predicate InterruptedTo(model: CrashModel, d: Disk, after: Disk) {
    && WellFormed(d) && RecoveryTrace(ViewOf(d)).Some?
    && exists k: nat :: k <= |RecoveryTrace(ViewOf(d)).value| && PowerCut(model, Exec(d, RecoveryTrace(ViewOf(d)).value[..k]), after)
  }

  /** However often the power goes, the files recovery ends with are those of the first directory. */
  lemma {:induction false} InterruptionsConverge(model: CrashModel, ds: seq<Disk>, n: nat)
    requires n < |ds| && Interrupted(model, ds)
    requires WellFormed(ds[0]) && ds[0].pending == [] && Pinned(ds[0].inodes, ds[0].durable)
    requires RecordsOk(ViewOf(ds[0])) && NoWiderThan(ViewOf(ds[0]), MAX_SOURCES)
    ensures WellFormed(ds[n]) && ds[n].pending == [] && Pinned(ds[n].inodes, ds[n].durable)
    ensures RecordsOk(ViewOf(ds[n])) && RecoveryTrace(ViewOf(ds[n])).Some?
    ensures Tables(ViewExec(ViewOf(ds[n]), RecoveryTrace(ViewOf(ds[n])).value)) == Effective(ViewOf(ds[0]))
  {
    if n == 0 {
      RecoveryRuns(ViewOf(ds[0]));
      RecoverySettles(ViewOf(ds[0]));
    } else {
      InterruptionsConverge(model, ds, n - 1);
      var d, after := ds[n - 1], ds[n];
      assert InterruptedTo(model, d, after);
      var k: nat :| k <= |RecoveryTrace(ViewOf(d)).value| && PowerCut(model, Exec(d, RecoveryTrace(ViewOf(d)).value[..k]), after);
      ConfluentUnderPowerCuts(model, d, k, after);
      SurvivorMeansTheSame(model, d, k, after);
    }
  }
}
