/**
  Recovery as it runs: `recover_one` and `recover_pending_merges`, every step and every read of which may
  fail, against the trace that specifies them.
*/
module Reopening {
  import opened Basics
  import opened Disk
  import opened Recovery
  import opened CrashSafety
  import opened Merge
  import opened Settling
  import opened Evidence

  /** The first `n` instructions of a trace, or all of it. */
  function Cut(trace: seq<Instr>, n: nat): seq<Instr> {
    if n <= |trace| then trace[..n] else trace
  }

  /** Which of the reads of a recovery fail. */
  datatype ReadFaults = ReadFaults(
    records: bool,       // the listing of the records
    record: bool,        // the record itself
    target: bool,        // whether the target exists
    marker: bool,        // the marker in the target
    builds: bool,        // the listing of the unfinished builds
    temps: bool)         // the listing of the unfinished records

  /** A read that fails once `at` steps are done, and its error. */
  datatype Stop = Stop(at: nat, why: Error)

  /** The read of one record's target that fails first. */
  function RecordStop(view: View, plan: Plan, faults: ReadFaults): Option<Stop> {
    if faults.target then Some(Stop(0, CatalogUnreadable))
    else if Data(plan.target) in view && faults.marker then Some(Stop(0, RecoveryFailed))
    else None
  }

  /** The read about the record in flight that fails first. Several records are refused unread. */
  function SettleStop(view: View, faults: ReadFaults): Option<Stop> {
    if faults.records then Some(Stop(0, CatalogUnreadable))
    else
      var listed := Listed(Records(view));
      if |listed| != 1 then None
      else if faults.record then Some(Stop(0, RecoveryFailed))
      else
        assert listed[0] in Records(view);
        if !Readable(view[Record(listed[0])], listed[0]) then None
        else RecordStop(view, view[Record(listed[0])].plan, faults)
  }

  /** The read of a whole recovery that fails first. */
  function ReadStop(view: View, faults: ReadFaults): Option<Stop> {
    if SettleStop(view, faults).Some? || SettleRecord(view).None? then SettleStop(view, faults)
    else
      var settle := SettleRecord(view).value;
      if faults.builds then Some(Stop(|settle|, CatalogUnreadable))
      else if faults.temps then Some(Stop(|settle| + |StrayBuilds(ViewExec(view, settle))|, CatalogUnreadable))
      else None
  }

  function StrayBuilds(view: View): seq<Name> { Builds(Listed(BuildVersions(view))) }

  function StrayTemps(view: View): seq<Name> { Temps(Listed(TempVersions(view))) }

  /** What a step that fails answers. */
  function FailureOf(i: Instr): Error { if i.Barrier? then SyncFailed else RemovalFailed }

  /** What a phase of recovery did of the trace it should do, and what it answered: a refusal before the first step, the
      first failing step, or the first failing read, whichever comes first. */
  ghost predicate Settles(trace: Option<seq<Instr>>, stop: Option<Stop>, before: seq<Instr>, log: seq<Instr>,
                          allowed: nat, left: nat, failure: Option<Error>) {
    match trace
    case None => log == before && failure == Some(if stop.Some? then stop.value.why else RecoveryFailed)
    case Some(steps) =>
      var n := if stop.Some? && stop.value.at < |steps| then stop.value.at else |steps|;
      && log == before + Cut(steps, if allowed < n then allowed else n)
      && (if allowed < n then failure == Some(if steps[allowed].Barrier? then SyncFailed else RemovalFailed)
          else failure == if stop.Some? then Some(stop.value.why) else None)
      && (failure.None? ==> left == allowed - |steps|)
  }

  /** Every read that this directory calls for works. */
  ghost predicate AllRead(view: View, faults: ReadFaults) {
    && !faults.records && !faults.builds && !faults.temps
    && (forall t: nat :: Record(t) in view ==> !faults.record && !faults.target && (Data(t) in view ==> !faults.marker))
  }

  /** A refusal before anything was done, and its error. */
  ghost predicate Refused(why: Error, before: seq<Instr>, log: seq<Instr>, failure: Option<Error>) {
    log == before && failure == Some(why)
  }

  /** Recovery stops here, whatever the directory and whichever read fails: several records; one that cannot be read or
      does not spell a merge into the version its name says; one whose target was written by something else. */
  ghost predicate StopsAt(view: View, faults: ReadFaults, why: Error) {
    if faults.records then why == CatalogUnreadable
    else if !OneAtMost(view) then why == RecoveryFailed
    else exists t: nat :: Record(t) in view && StopsAtRecord(view, t, faults, why)
  }

  ghost predicate StopsAtRecord(view: View, t: nat, faults: ReadFaults, why: Error)
    requires Record(t) in view
  {
    if faults.record || !Legible(view[Record(t)], t) then why == RecoveryFailed
    else if faults.target then why == CatalogUnreadable
    else why == RecoveryFailed && ((Data(t) in view && faults.marker) || !WrittenByIt(view, t))
  }

  /** What recovery answers of any directory. Where it stops it has done nothing, and it succeeds exactly when the
      directory is evident, every read works and so does every step. */
  ghost predicate Answers(view: View, faults: ReadFaults, steps: nat, before: seq<Instr>, log: seq<Instr>, allowed: nat,
                          failure: Option<Error>) {
    && (forall why :: StopsAt(view, faults, why) ==> Refused(why, before, log, failure))
    && (failure.None? <==> Evident(view) && AllRead(view, faults) && steps <= allowed)
  }

  /** How many steps a recovery that runs takes. */
  function Steps(view: View): nat {
    if RecoveryTrace(view).Some? then |RecoveryTrace(view).value| else 0
  }

  /** The part of recovery that a record asks for stops before its first step. */
  ghost predicate StopsUnread(view: View, faults: ReadFaults, why: Error) {
    if SettleStop(view, faults).Some? then SettleStop(view, faults).value == Stop(0, why)
    else SettleRecord(view).None? && why == RecoveryFailed
  }

  lemma StopsOne(view: View, t: nat, faults: ReadFaults, why: Error)
    requires !faults.records && OneAtMost(view) && Record(t) in view && Listed(Records(view)) == [t]
    ensures StopsAt(view, faults, why) <==> StopsUnread(view, faults, why)
  {
    assert forall u: nat :: Record(u) in view ==> u == t;
    LegibleIsReadable(view[Record(t)], t);
  }

  lemma StopsExactly(view: View, faults: ReadFaults, why: Error)
    ensures StopsAt(view, faults, why) <==> StopsUnread(view, faults, why)
  {
    if faults.records {
    } else if !OneAtMost(view) {
      Several(view);
    } else if t: nat :| Record(t) in view {
      OnlyOne(view, t);
      StopsOne(view, t, faults, why);
    } else {
      NoRecords(view);
    }
  }

  /** It stops nowhere exactly when the directory is evident and the reads about its record work. */
  lemma StopsNowhere(view: View, faults: ReadFaults)
    ensures (exists why :: StopsAt(view, faults, why))
            <==> !(Evident(view) && AllRead(view, faults.(builds := false, temps := false)))
  {
    if faults.records {
      assert StopsAt(view, faults, CatalogUnreadable);
    } else if !OneAtMost(view) {
      assert StopsAt(view, faults, RecoveryFailed);
    } else if t: nat :| Record(t) in view && (!Legible(view[Record(t)], t) || !WrittenByIt(view, t) || faults.record || faults.target
                                              || (Data(t) in view && faults.marker)) {
      var why := if faults.record || !Legible(view[Record(t)], t) || !faults.target then RecoveryFailed else CatalogUnreadable;
      assert StopsAtRecord(view, t, faults, why) && StopsAt(view, faults, why);
      assert Evident(view) ==> Legible(view[Record(t)], t) && WrittenByIt(view, t);
    } else {
      forall why, t: nat | Record(t) in view ensures !StopsAtRecord(view, t, faults, why) {}
    }
  }

  /** Settling that stops answers before anything is done. */
  lemma RefusedUnread(view: View, why: Error, faults: ReadFaults, before: seq<Instr>, log: seq<Instr>, allowed: nat, left: nat,
                      failure: Option<Error>)
    requires Settles(RecoveryTrace(view), ReadStop(view, faults), before, log, allowed, left, failure)
    requires StopsUnread(view, faults, why)
    ensures Refused(why, before, log, failure)
  {
    assert ReadStop(view, faults) == SettleStop(view, faults);
    assert RecoveryTrace(view).Some? ==> Cut(RecoveryTrace(view).value, 0) == [];
  }

  /** Settling that stops at no read. */
  lemma NothingStops(view: View, faults: ReadFaults, before: seq<Instr>, log: seq<Instr>, allowed: nat, left: nat, failure: Option<Error>)
    requires Settles(RecoveryTrace(view), ReadStop(view, faults), before, log, allowed, left, failure)
    requires SettleStop(view, faults).None? && SettleRecord(view).Some?
    ensures failure.None? <==> !faults.builds && !faults.temps && Steps(view) <= allowed
    ensures failure.None? ==> RecoveryTrace(view).Some? && log == before + RecoveryTrace(view).value
  {
    var trace := RecoveryTrace(view).value;
    assert Cut(trace, |trace|) == trace;
    RemovalsConcat(StrayBuilds(ViewExec(view, SettleRecord(view).value)), StrayTemps(ViewExec(view, SettleRecord(view).value)));
  }

  lemma StopsOrRuns(view: View, faults: ReadFaults)
    ensures SettleStop(view, faults).Some? ==> SettleStop(view, faults).value.at == 0
    ensures (SettleStop(view, faults).None? && SettleRecord(view).Some?) || exists why :: StopsUnread(view, faults, why)
  {
    if SettleStop(view, faults).Some? {
      assert SettleStop(view, faults).value.at == 0;
      assert StopsUnread(view, faults, SettleStop(view, faults).value.why);
    } else if SettleRecord(view).None? {
      assert StopsUnread(view, faults, RecoveryFailed);
    }
  }

  /** The trace and the read that stops it, told of the directory. */
  lemma AnswersOfEvidence(view: View, faults: ReadFaults, before: seq<Instr>, log: seq<Instr>, allowed: nat, left: nat, failure: Option<Error>)
    requires Settles(RecoveryTrace(view), ReadStop(view, faults), before, log, allowed, left, failure)
    ensures Answers(view, faults, Steps(view), before, log, allowed, failure)
    ensures failure.None? ==> RecoveryTrace(view).Some? && log == before + RecoveryTrace(view).value
  {
    forall why | StopsAt(view, faults, why) ensures Refused(why, before, log, failure) {
      StopsExactly(view, faults, why);
      RefusedUnread(view, why, faults, before, log, allowed, left, failure);
    }
    StopsNowhere(view, faults);
    StopsOrRuns(view, faults);
    if why :| StopsUnread(view, faults, why) {
      StopsExactly(view, faults, why);
    } else {
      NothingStops(view, faults, before, log, allowed, left, failure);
      forall why ensures !StopsAt(view, faults, why) { StopsExactly(view, faults, why); }
    }
  }

  /** What a recovery that succeeds leaves. */
  lemma LeavesOfEvidence(view: View, start: Disk, before: seq<Instr>, log: seq<Instr>)
    requires WellFormed(start) && view == ViewOf(Exec(start, before))
    requires RecoveryTrace(view).Some? && log == before + RecoveryTrace(view).value
    ensures Leaves(view, ViewOf(Exec(start, log)))
  {
    ExecConcat(start, before, RecoveryTrace(view).value);
    ExecSees(Exec(start, before), RecoveryTrace(view).value);
    RecoveryLeaves(view);
  }

  lemma {:induction false} RetireAt(sources: seq<nat>, i: nat)
    requires i < |sources|
    ensures |Retire(sources, {})| == |sources| && Retire(sources, {})[i] == Unlink(Data(sources[i]))
    decreases |sources|
  {
    if |sources| > 1 { RetireAt(sources[1..], if i == 0 then 0 else i - 1); }
  }

  lemma {:induction false} RetireSize(sources: seq<nat>)
    ensures |Retire(sources, {})| == |sources|
  {
    if sources != [] { RetireSize(sources[1..]); }
  }

  class Opening {
    var disk: Disk
    var allowance: nat               // how many more directory steps work before one fails
    const faults: ReadFaults
    ghost const start: Disk
    ghost var log: seq<Instr>

    ghost predicate Logged()
      reads this`disk, this`log
    {
      WellFormed(start) && disk == Exec(start, log)
    }

    constructor (d: Disk, allowance: nat, faults: ReadFaults)
      requires WellFormed(d)
      ensures Logged() && disk == d && start == d && log == [] && this.allowance == allowance && this.faults == faults
    {
      disk, start, log, this.allowance, this.faults := d, d, [], allowance, faults;
    }

    /** One step of recovery, which may fail and then has done nothing. */
    method Try(i: Instr) returns (ok: bool)
      requires Logged()
      modifies this
      ensures Logged() && ok == (old(allowance) > 0)
      ensures log == if ok then old(log) + [i] else old(log)
      ensures allowance == if ok then old(allowance) - 1 else 0
    {
      ok := allowance > 0;
      if ok {
        ExecConcat(start, log, [i]);
        assert [i] == [i] + [];
        ExecCons(disk, i, []);
        disk, log, allowance := Step(disk, i), log + [i], allowance - 1;
      }
    }

    /** So far this has done the first `n` steps of `trace`, after `before`. */
    ghost predicate Done(before: seq<Instr>, trace: seq<Instr>, n: nat, allowed: nat)
      reads this`log, this`allowance
    {
      n <= |trace| && n <= allowed && allowance == allowed - n && log == before + trace[..n]
    }

    /** The next step of a trace. */
    method Next(i: Instr, ghost before: seq<Instr>, ghost trace: seq<Instr>, ghost n: nat, ghost allowed: nat) returns (ok: bool)
      requires Logged() && Done(before, trace, n, allowed) && n < |trace| && trace[n] == i
      modifies this
      ensures Logged() && ok == (allowed > n)
      ensures ok ==> Done(before, trace, n + 1, allowed)
      ensures !ok ==> n == allowed && log == before + Cut(trace, allowed) && allowance == 0
    {
      assert trace[..n + 1] == trace[..n] + [i];
      ok := Try(i);
    }

    /** The removals of the sources, one by one, stopping at the first that fails. */
    method RetireEach(sources: seq<nat>) returns (failure: Option<Error>)
      requires Logged()
      modifies this
      ensures Logged() && Settles(Some(Retire(sources, {})), None, old(log), log, old(allowance), allowance, failure)
    {
      ghost var trace := Retire(sources, {});
      RetireSize(sources);
      var i := 0;
      while i < |sources|
        invariant 0 <= i <= |sources| && Logged() && Done(old(log), trace, i, old(allowance))
      {
        RetireAt(sources, i);
        var ok := Next(Unlink(Data(sources[i])), old(log), trace, i, old(allowance));
        if !ok { return Some(RemovalFailed); }
        i := i + 1;
      }
      assert trace[..i] == trace;
      failure := None;
    }

    /** A fixed list of steps. */
    method Each(steps: seq<Instr>) returns (failure: Option<Error>)
      requires Logged()
      modifies this
      ensures Logged() && Settles(Some(steps), None, old(log), log, old(allowance), allowance, failure)
    {
      var i := 0;
      while i < |steps|
        invariant 0 <= i <= |steps| && Logged() && Done(old(log), steps, i, old(allowance))
      {
        var ok := Next(steps[i], old(log), steps, i, old(allowance));
        if !ok { return Some(FailureOf(steps[i])); }
        i := i + 1;
      }
      assert steps[..i] == steps;
      failure := None;
    }

    /** The rest of a published merge. */
    method FinishRecord(plan: Plan) returns (failure: Option<Error>)
      requires Logged()
      modifies this
      ensures Logged() && Settles(Some(Finish(plan)), None, old(log), log, old(allowance), allowance, failure)
    {
      ghost var before, allowed := log, allowance;
      failure := RetireEach(plan.sources);
      ghost var mid, left := log, allowance;
      if failure.None? { failure := Each(Close(plan.target)); }
      InTwoParts(Retire(plan.sources, {}), Close(plan.target), before, mid, log, allowed, left, allowance, failure);
    }

    /** `recover_one`: abandon an unpublished merge, finish a published one, refuse any other. */
    method RecoverRecord(plan: Plan) returns (failure: Option<Error>)
      requires Logged()
      modifies this
      ensures Logged()
      ensures Settles(RecoverOne(old(ViewOf(disk)), plan), RecordStop(old(ViewOf(disk)), plan, faults), old(log), log,
                      old(allowance), allowance, failure)
    {
      var view, t := ViewOf(disk), plan.target;
      if faults.target { return Some(CatalogUnreadable); }
      if Data(t) !in view {
        failure := Each([Unlink(Building(t)), Unlink(Record(t)), Barrier]);
      } else if faults.marker || !(view[Data(t)].Rows? && view[Data(t)].marker == Some(plan.id)) {
        failure := Some(RecoveryFailed);
      } else {
        failure := FinishRecord(plan);
      }
    }

    /** The record of the class, if it has one; two of them, or one that cannot be read, stop here. */
    method SettleRecords() returns (failure: Option<Error>)
      requires Logged()
      modifies this
      ensures Logged()
      ensures Settles(SettleRecord(old(ViewOf(disk))), SettleStop(old(ViewOf(disk)), faults), old(log), log,
                      old(allowance), allowance, failure)
    {
      var view := ViewOf(disk);
      if faults.records { return Some(CatalogUnreadable); }
      var listed := Listed(Records(view));
      if |listed| > 1 { return Some(RecoveryFailed); }
      if |listed| == 0 { return None; }
      assert listed[0] in Records(view);
      if faults.record || !Readable(view[Record(listed[0])], listed[0]) { return Some(RecoveryFailed); }
      failure := RecoverRecord(view[Record(listed[0])].plan);
    }

    /** What nothing vouches for: the unfinished builds, then the unfinished records. */
    method Sweep() returns (failure: Option<Error>)
      requires Logged()
      modifies this
      ensures Logged()
      ensures Settles(Some(Removals(Strays(old(ViewOf(disk))))), SweepStop(old(ViewOf(disk)), faults), old(log), log,
                      old(allowance), allowance, failure)
    {
      ghost var view, before, allowed := ViewOf(disk), log, allowance;
      if faults.builds { return Some(CatalogUnreadable); }
      failure := Each(Removals(StrayBuilds(ViewOf(disk))));
      ghost var mid, left := log, allowance;
      if failure.None? {
        BuildsGone(view, start, before, log, allowed, allowance);
        failure := SweepTemps();
      }
      SweptInTwo(view, faults, before, mid, log, allowed, left, allowance, failure);
    }

    /** The unfinished records. */
    method SweepTemps() returns (failure: Option<Error>)
      requires Logged()
      modifies this
      ensures Logged()
      ensures if faults.temps then log == old(log) && failure == Some(CatalogUnreadable)
              else Settles(Some(Removals(StrayTemps(old(ViewOf(disk))))), None, old(log), log, old(allowance), allowance, failure)
    {
      if faults.temps { return Some(CatalogUnreadable); }
      failure := Each(Removals(StrayTemps(ViewOf(disk))));
    }

    /** `recover_pending_merges`, for one class: the record, then what nothing vouches for. */
    method RecoverPending() returns (failure: Option<Error>)
      requires Logged()
      modifies this
      ensures Logged()
      ensures Settles(RecoveryTrace(old(ViewOf(disk))), ReadStop(old(ViewOf(disk)), faults), old(log), log,
                      old(allowance), allowance, failure)
      ensures Answers(old(ViewOf(disk)), faults, Steps(old(ViewOf(disk))), old(log), log, old(allowance), failure)
      ensures failure.None? ==> Leaves(old(ViewOf(disk)), ViewOf(disk))
    {
      ghost var view, before, allowed := ViewOf(disk), log, allowance;
      failure := SettleRecords();
      if failure.Some? {
        StoppedEarly(view, faults, before, log, allowed, allowance, failure);
      } else {
        AfterSettling(view, SettleStop(view, faults), start, before, log, allowed, allowance);
        ghost var settled, left := log, allowance;
        failure := Sweep();
        ThenSwept(view, faults, before, settled, log, allowed, left, allowance, failure);
      }
      AnswersOfEvidence(view, faults, before, log, allowed, allowance, failure);
      if failure.None? { LeavesOfEvidence(view, start, before, log); }
    }
  }

  function Close(t: nat): seq<Instr> {
    [Barrier, Unlink(Record(t)), Unlink(Building(t)), Barrier]
  }

  function Finish(plan: Plan): seq<Instr> {
    Retire(plan.sources, {}) + Close(plan.target)
  }

  /** The listing of the strays that fails first. */
  function SweepStop(view: View, faults: ReadFaults): Option<Stop> {
    if faults.builds then Some(Stop(0, CatalogUnreadable))
    else if faults.temps then Some(Stop(|StrayBuilds(view)|, CatalogUnreadable))
    else None
  }

  lemma CutConcat(a: seq<Instr>, b: seq<Instr>, n: nat)
    ensures n <= |a| ==> Cut(a + b, n) == Cut(a, n)
    ensures n >= |a| ==> Cut(a + b, n) == a + Cut(b, n - |a|)
  {
  }

  lemma Associative(a: seq<Instr>, b: seq<Instr>, c: seq<Instr>)
    ensures (a + b) + c == a + (b + c)
  {
  }

  /** One list of steps, and if that is done another. */
  lemma InTwoParts(a: seq<Instr>, b: seq<Instr>, before: seq<Instr>, mid: seq<Instr>, log: seq<Instr>,
                   allowed: nat, left: nat, rest: nat, failure: Option<Error>)
    requires if allowed < |a| then Settles(Some(a), None, before, log, allowed, rest, failure)
             else Settles(Some(a), None, before, mid, allowed, left, None) && Settles(Some(b), None, mid, log, left, rest, failure)
    ensures Settles(Some(a + b), None, before, log, allowed, rest, failure)
  {
    CutConcat(a, b, allowed);
    CutConcat(a, b, |a + b|);
    if allowed >= |a| {
      assert mid == before + a;
      assert log == before + (a + Cut(b, if left < |b| then left else |b|));
      assert Cut(a + b, if allowed < |a + b| then allowed else |a + b|) == a + Cut(b, if left < |b| then left else |b|);
    }
  }

  lemma RemovalsConcat(a: seq<Name>, b: seq<Name>)
    ensures Removals(a + b) == Removals(a) + Removals(b)
  {
  }

  /** Removing the unfinished builds leaves the unfinished records as they were. */
  lemma BuildsGone(view: View, start: Disk, before: seq<Instr>, log: seq<Instr>, allowed: nat, left: nat)
    requires WellFormed(start) && view == ViewOf(Exec(start, before))
    requires Settles(Some(Removals(StrayBuilds(view))), None, before, log, allowed, left, None)
    ensures StrayTemps(ViewOf(Exec(start, log))) == StrayTemps(view)
  {
    var builds := StrayBuilds(view);
    AfterSettlingSteps(view, Removals(builds), start, before, log, allowed, left);
    RemovalsSee(view, builds);
    TempsStay(view, builds);
  }

  lemma TempsStay(view: View, builds: seq<Name>)
    requires forall n :: n in builds ==> n.Building?
    ensures StrayTemps(view - (set n | n in builds)) == StrayTemps(view)
  {
    var now := view - (set n | n in builds);
    assert forall v: nat :: RecordTmp(v) in now <==> RecordTmp(v) in view;
    forall v: nat ensures v in TempVersions(now) <==> v in TempVersions(view) {
      assert v in TempVersions(now) <==> RecordTmp(v) in now;
      assert v in TempVersions(view) <==> RecordTmp(v) in view;
    }
    assert TempVersions(now) == TempVersions(view);
  }

  lemma SweptInTwo(view: View, faults: ReadFaults, before: seq<Instr>, mid: seq<Instr>, log: seq<Instr>,
                   allowed: nat, left: nat, rest: nat, failure: Option<Error>)
    requires !faults.builds
    requires var a, b := Removals(StrayBuilds(view)), Removals(StrayTemps(view));
             if allowed < |a| then Settles(Some(a), None, before, log, allowed, rest, failure)
             else Settles(Some(a), None, before, mid, allowed, left, None)
                  && if faults.temps then log == mid && failure == Some(CatalogUnreadable)
                     else Settles(Some(b), None, mid, log, left, rest, failure)
    ensures Settles(Some(Removals(Strays(view))), SweepStop(view, faults), before, log, allowed, rest, failure)
  {
    var a, b := Removals(StrayBuilds(view)), Removals(StrayTemps(view));
    RemovalsConcat(StrayBuilds(view), StrayTemps(view));
    if faults.temps {
      CutConcat(a, b, allowed);
      CutConcat(a, b, |a|);
      if b == [] { assert a + b == a; }
    } else {
      InTwoParts(a, b, before, mid, log, allowed, left, rest, failure);
    }
  }

  lemma AfterSettlingSteps(view: View, steps: seq<Instr>, start: Disk, before: seq<Instr>, log: seq<Instr>, allowed: nat, left: nat)
    requires WellFormed(start) && view == ViewOf(Exec(start, before))
    requires Settles(Some(steps), None, before, log, allowed, left, None)
    ensures log == before + steps && ViewOf(Exec(start, log)) == ViewExec(view, steps)
  {
    assert Cut(steps, |steps|) == steps;
    ExecConcat(start, before, steps);
    ExecSees(Exec(start, before), steps);
  }

  lemma AfterSettling(view: View, stop: Option<Stop>, start: Disk, before: seq<Instr>, log: seq<Instr>, allowed: nat, left: nat)
    requires WellFormed(start) && view == ViewOf(Exec(start, before))
    requires Settles(SettleRecord(view), stop, before, log, allowed, left, None)
    ensures stop.None? && SettleRecord(view).Some?
    ensures log == before + SettleRecord(view).value
    ensures ViewOf(Exec(start, log)) == ViewExec(view, SettleRecord(view).value)
  {
    AfterSettlingSteps(view, SettleRecord(view).value, start, before, log, allowed, left);
  }

  lemma StoppedEarly(view: View, faults: ReadFaults, before: seq<Instr>, log: seq<Instr>, allowed: nat, left: nat, failure: Option<Error>)
    requires failure.Some? && Settles(SettleRecord(view), SettleStop(view, faults), before, log, allowed, left, failure)
    ensures Settles(RecoveryTrace(view), ReadStop(view, faults), before, log, allowed, left, failure)
  {
    if SettleRecord(view).Some? {
      var settle := SettleRecord(view).value;
      var sweep := Removals(Strays(ViewExec(view, settle)));
      CutConcat(settle, sweep, allowed);
      CutConcat(settle, sweep, 0);
    }
  }

  lemma ThenSwept(view: View, faults: ReadFaults, before: seq<Instr>, settled: seq<Instr>, log: seq<Instr>,
                  allowed: nat, left: nat, rest: nat, failure: Option<Error>)
    requires SettleRecord(view).Some? && SettleStop(view, faults).None?
    requires Settles(SettleRecord(view), None, before, settled, allowed, left, None) && settled == before + SettleRecord(view).value
    requires var after := ViewExec(view, SettleRecord(view).value);
             Settles(Some(Removals(Strays(after))), SweepStop(after, faults), settled, log, left, rest, failure)
    ensures Settles(RecoveryTrace(view), ReadStop(view, faults), before, log, allowed, rest, failure)
  {
    var settle := SettleRecord(view).value;
    var after := ViewExec(view, settle);
    LaterStop(settle, Removals(Strays(after)), SweepStop(after, faults), before, settled, log, allowed, left, rest, failure);
  }

  /** A phase that was done, and then one that a read may stop. */
  lemma LaterStop(a: seq<Instr>, b: seq<Instr>, stop: Option<Stop>, before: seq<Instr>, mid: seq<Instr>, log: seq<Instr>,
                  allowed: nat, left: nat, rest: nat, failure: Option<Error>)
    requires allowed >= |a| && left == allowed - |a| && mid == before + a
    requires Settles(Some(b), stop, mid, log, left, rest, failure)
    ensures Settles(Some(a + b), if stop.Some? then Some(Stop(|a| + stop.value.at, stop.value.why)) else None, before, log, allowed, rest, failure)
  {
    var n := if stop.Some? && stop.value.at < |b| then stop.value.at else |b|;
    var k := if left < n then left else n;
    CutConcat(a, b, |a| + k);
    Associative(before, a, Cut(b, k));
  }
}
