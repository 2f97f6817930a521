/**
  Compaction of one size class as it runs: `merge_versions` step by step against the trace
  that specifies it, and `merge_groups` choosing what to merge.
*/
module Compaction {
  import opened Basics
  import opened Disk
  import opened Recovery
  import opened CrashSafety
  import opened Merge
  import opened Settling
  import opened MergeEffect
  import opened Chain
  import opened Thrown
  import Tidying
  import opened BuildLoop
  import opened Greedy
  import opened Grouping

  /** An exception that leaves a merge once so many of its steps are done, or at its end. Where the catalogue is about
      to be told: whether it had been, and whether the identity had been issued when the version could not be added. */
  datatype Escape = Escape(after: nat, told: bool, issued: bool)

  /** How many steps are done by then. */
  function StepsDone(job: Job, f: Fate, e: Escape): (n: nat)
    ensures n <= |MergeTrace(job, f)|
  {
    if e.after <= |MergeTrace(job, f)| then e.after else |MergeTrace(job, f)|
  }

  predicate TellsCatalogue(job: Job, f: Fate, e: Escape) {
    Told(job, f, StepsDone(job, f, e)) && (StepsDone(job, f, e) > |Prelude(job, f)| || e.told)
  }

  predicate OnlyIssues(job: Job, f: Fate, e: Escape) {
    Told(job, f, StepsDone(job, f, e)) && !TellsCatalogue(job, f, e) && e.issued
  }

  /** The steps of one attempt. */
  function StepsOf(job: Job, f: Fate, luck: Luck): seq<Instr> {
    if luck.escapes.Some? then MergeTrace(job, f)[..StepsDone(job, f, luck.escapes.value)] else MergeTrace(job, f)
  }

  /** What comes of it: `compact_container` makes `file_open_failed` of an exception. */
  function EndOf(job: Job, f: Fate, luck: Luck): Outcome {
    if luck.escapes.Some? then Thrown(FileOpenFailed) else OutcomeOf(job, f)
  }

  /** The catalogue has been told of the merge. */
  predicate Tells(job: Job, f: Fate, luck: Luck) {
    if luck.escapes.Some? then TellsCatalogue(job, f, luck.escapes.value) else f.build == Built && Catalogued(f)
  }

  predicate Issues(job: Job, f: Fate, luck: Luck) { luck.escapes.Some? && OnlyIssues(job, f, luck.escapes.value) }

  /** What the environment does to one attempted merge. */
  datatype Luck = Luck(
    escapes: Option<Escape>,  // an exception that leaves `merge_versions`, if one does
    check: Option<Error>,     // a check made before anything is written, if one fails
    drawn: nat,               // what the entropy source gave; zero is refused
    unreadable: set<nat>,     // sources that do not open
    throwsAt: Option<nat>,    // how many entries are in when the segment runs out of memory
    leftover: Content,        // what a failed build left in its file
    fate: Fate)               // whether the segment is created, and every step after the build

  /** Nothing but the target's limit can answer that there is too little room. */
  predicate CapacityOnly(luck: Luck) {
    luck.throwsAt.None? && luck.check != Some(InsufficientSpace)
    && (luck.fate.build == Built || luck.fate.build.why != InsufficientSpace)
  }

  /** Nothing but two sources sharing a key can answer that one is held twice. */
  predicate DuplicatesOnly(luck: Luck) {
    luck.check != Some(DuplicateKey) && (luck.fate.build == Built || luck.fate.build.why != DuplicateKey)
  }

  /** Nothing goes wrong: every source opens, memory lasts, and every step works. */
  predicate Smooth(luck: Luck) {
    && luck.escapes.None? && luck.check.None? && luck.drawn != 0 && luck.unreadable == {} && luck.throwsAt.None?
    && luck.fate.build == Built && luck.fate.contentSynced
    && luck.fate.recordWritten && luck.fate.recordSynced && luck.fate.recordNamed && luck.fate.recordBarrier
    && luck.fate.published && luck.fate.targetBarrier && luck.fate.markerMatches
    && luck.fate.stuck == {} && luck.fate.retireBarrier && luck.fate.recordRemoved
  }

  ghost predicate AlwaysCapacityOnly(lucks: nat -> Luck) { forall k :: CapacityOnly(lucks(k)) }

  ghost predicate AlwaysSmooth(lucks: nat -> Luck) { forall k :: Smooth(lucks(k)) }

  ghost predicate AlwaysConfirmed(lucks: nat -> Luck) { forall k :: lucks(k).fate.finalBarrier }

  /** What stops a merge before it has written anything. An exception is `file_open_failed` by the time
      `compact_container` answers. */
  function Objection(view: View, plan: Plan, luck: Luck): Option<Error> {
    if luck.escapes.Some? && luck.escapes.value.after == 0 then Some(FileOpenFailed)
    else if Data(plan.target) in view then Some(IdentityCollision)
    else if luck.check.Some? then luck.check
    else if luck.drawn == 0 then Some(EntropyUnavailable)
    else None
  }

  /** The versions of a catalogue, with what their files hold. */
  function TablesOfCatalogue(view: View, catalogue: seq<nat>): map<nat, Table> {
    Catalogue(Tables(view), set v | v in catalogue)
  }

  lemma AscendingSnoc(s: seq<nat>, v: nat)
    requires Ascending(s) && forall x :: x in s ==> x < v
    ensures Ascending(s + [v])
  {
    assert forall i :: 0 <= i < |s| ==> s[i] in s;
  }

  lemma SourcesAreServed(view: View, catalogue: seq<nat>, sources: seq<nat>)
    requires forall s :: s in sources ==> s in catalogue && s in Tables(view)
    ensures TablesAt(TablesOfCatalogue(view, catalogue), sources) == TablesAt(Tables(view), sources)
    ensures United(TablesAt(Tables(view), sources)) == MergedOf(Tables(view), sources)
  {
    UnitedIsMerged(Tables(view), sources);
  }

  /** What a merge's answer says of its sources. */
  ghost predicate ErrorMeans(outcome: Outcome, luck: Luck, tables: seq<Table>, limit: nat) {
    && (outcome.Merged? ==> Disjoint(tables) && Copies(tables) <= limit)
    && (outcome == Refused(DuplicateKey) && DuplicatesOnly(luck) ==> !Disjoint(tables))
    && (outcome == Refused(InsufficientSpace) && CapacityOnly(luck) ==> |United(tables)| > limit)
    && (Smooth(luck) && Disjoint(tables) ==> Expected(outcome, Copies(tables), limit))
  }

  /** Disjoint sources and no fault: the merge succeeds exactly when they fit, unless its name is taken. */
  predicate Expected(outcome: Outcome, entries: nat, limit: nat) {
    outcome == Refused(IdentityCollision) || outcome == if entries <= limit then Merged else Refused(InsufficientSpace)
  }

  /** The catalogue after a merge. */
  ghost predicate Supersedes(after: seq<nat>, before: seq<nat>, sources: seq<nat>, t: nat) {
    Ascending(after) && forall v :: v in after <==> (v in before && v !in sources) || v == t
  }

  /** The register without the retired versions. */
  ghost predicate Discharged(now: set<nat>, was: set<nat>, sources: seq<nat>) {
    forall v :: v in now <==> v in was && v !in sources
  }

  /** What a change of the catalogue does to the register of versions still to be flushed. */
  ghost predicate Registers(before: seq<nat>, after: seq<nat>, was: set<nat>, now: set<nat>, top: nat) {
    forall v :: v in after ==> if v in before then (v in now <==> v in was) else (v !in now && v > top)
  }

  /** A class as compaction sees it. */
  datatype Snapshot = Snapshot(disk: Disk, log: seq<Instr>, catalogue: seq<nat>, highest: nat, dirty: set<nat>, cleanup: bool)

  /** Everything a merge did, to its end or to where an exception left it. */
  ghost predicate Went(a: Snapshot, b: Snapshot, job: Job, f: Fate, luck: Luck, outcome: Outcome) {
    && WellFormed(a.disk) && FitsView(job, ViewOf(a.disk)) && job.plan.target == a.highest + 1
    && b.log == a.log + StepsOf(job, f, luck)
    && outcome == EndOf(job, f, luck) && b.cleanup == outcome.Latched?
    && ToldOrNot(a, b, job, f, luck)
    && TablesOfCatalogue(ViewOf(b.disk), b.catalogue) == ServedAfter(TablesOfCatalogue(ViewOf(a.disk), a.catalogue), job, Tells(job, f, luck))
  }

  /** The catalogue then: told of the merge or not, the identity issued or not. */
  ghost predicate ToldOrNot(a: Snapshot, b: Snapshot, job: Job, f: Fate, luck: Luck) {
    if Tells(job, f, luck) then
      && Supersedes(b.catalogue, a.catalogue, job.plan.sources, job.plan.target)
      && b.highest == job.plan.target && Discharged(b.dirty, a.dirty, job.plan.sources)
    else
      && b.catalogue == a.catalogue && b.dirty == a.dirty
      && b.highest == if Issues(job, f, luck) then job.plan.target else a.highest
  }

  class Compactor {
    const limit: nat                 // max_size_without_rehash of the target
    var disk: Disk
    var catalogue: seq<nat>
    var highest: nat                 // highest_issued_
    var dirty: set<nat>              // this class's part of dirty_versions_
    var cleanupPending: bool
    ghost const start: Disk
    ghost var log: seq<Instr>        // every instruction since `start`

    ghost predicate Logged()
      reads this`disk, this`log
    {
      WellFormed(start) && disk == Exec(start, log)
    }

    ghost predicate Valid()
      reads this`disk, this`log, this`catalogue, this`highest, this`dirty
    {
      && Logged()
      && Ascending(catalogue)
      && (forall v :: v in catalogue ==> v <= highest && v in Tables(ViewOf(disk)))
      && (forall v :: v in dirty ==> v in catalogue)
      && |catalogue| > 0
    }

    /** The catalogue names every canonical file. */
    ghost predicate Complete()
      reads this`disk, this`catalogue
    {
      forall v :: v in catalogue <==> v in Tables(ViewOf(disk))
    }

    ghost function Served(): map<nat, Table>
      reads this`disk, this`catalogue
    {
      TablesOfCatalogue(ViewOf(disk), catalogue)
    }

    constructor (d: Disk, catalogue: seq<nat>, highest: nat, dirty: set<nat>, limit: nat)
      requires WellFormed(d) && Ascending(catalogue)
      requires forall v :: v in catalogue ==> v <= highest && v in Tables(ViewOf(d))
      requires (forall v :: v in dirty ==> v in catalogue) && |catalogue| > 0
      ensures Valid() && !cleanupPending && log == []
      ensures disk == d && start == d && this.catalogue == catalogue && this.highest == highest
      ensures this.dirty == dirty && this.limit == limit
    {
      disk, start, log := d, d, [];
      this.catalogue, this.highest, this.dirty, this.limit := catalogue, highest, dirty, limit;
      cleanupPending := false;
    }

    /** One instruction on the directory; `rest` is what the trace still has after it. */
    method Do(i: Instr, ghost rest: seq<Instr> := [])
      requires Logged()
      modifies this`disk, this`log
      ensures Logged() && log == old(log) + [i]
      ensures log + rest == old(log) + ([i] + rest)
    {
      ExecConcat(start, log, [i]);
      assert [i] == [i] + [];
      ExecCons(disk, i, []);
      disk := Step(disk, i);
      log := log + [i];
    }

    /** The removal of the unfinished target, whose outcome nobody checks. */
    method Discard(job: Job, f: Fate)
      requires Logged()
      modifies this`disk, this`log
      ensures Logged() && log == old(log) + Abandon(job, f)
    {
      if f.abandonRemoves { Do(Unlink(Building(job.plan.target))); }
    }

    /** The catalogue says so first: the target is in it, the sources are not. */
    method Recatalogue(plan: Plan)
      requires Ascending(catalogue) && plan.target == highest + 1 && plan.target !in plan.sources
      requires forall v :: v in catalogue ==> v <= highest
      modifies this`catalogue, this`highest, this`dirty
      ensures Supersedes(catalogue, old(catalogue), plan.sources, plan.target)
      ensures highest == plan.target && Discharged(dirty, old(dirty), plan.sources)
    {
      ghost var named := catalogue + [plan.target];
      AscendingSnoc(catalogue, plan.target);
      catalogue, highest := catalogue + [plan.target], plan.target;
      var i := 0;
      while i < |plan.sources|
        invariant 0 <= i <= |plan.sources|
        invariant Ascending(catalogue) && forall v :: v in catalogue <==> v in named && v !in plan.sources[..i]
        invariant Discharged(dirty, old(dirty), plan.sources[..i])
        invariant highest == plan.target
      {
        catalogue := Without(catalogue, {plan.sources[i]});
        dirty := dirty - {plan.sources[i]};
        assert plan.sources[..i + 1] == plan.sources[..i] + [plan.sources[i]];
        i := i + 1;
      }
      assert plan.sources[..i] == plan.sources;
    }

    /** Every source is attempted, whatever became of the others. */
    method RemoveSources(sources: seq<nat>, stuck: set<nat>) returns (allRetired: bool)
      requires Logged()
      modifies this`disk, this`log
      ensures Logged() && log == old(log) + Retire(sources, stuck)
      ensures allRetired <==> forall s :: s in sources ==> s !in stuck
    {
      allRetired := true;
      var i := 0;
      while i < |sources|
        invariant 0 <= i <= |sources| && Logged()
        invariant log + Retire(sources[i..], stuck) == old(log) + Retire(sources, stuck)
        invariant allRetired <==> forall k :: 0 <= k < i ==> sources[k] !in stuck
      {
        assert sources[i..][1..] == sources[i + 1..];
        if sources[i] in stuck {
          allRetired := false;
          assert [] + Retire(sources[i + 1..], stuck) == Retire(sources[i + 1..], stuck);
        } else {
          Do(Unlink(Data(sources[i])));
        }
        i := i + 1;
      }
    }

    /** Confirm the removals; the record goes only when every source is gone. */
    method CloseRecord(job: Job, f: Fate, removed: bool) returns (outcome: Outcome)
      requires Logged()
      requires f.build == Built && Catalogued(f)
      requires removed <==> forall s :: s in job.plan.sources ==> s !in f.stuck
      modifies this`disk, this`log, this`cleanupPending
      ensures Logged() && log == old(log) + ConfirmRetired(job, f)
      ensures outcome == OutcomeOf(job, f) && cleanupPending == (old(cleanupPending) || outcome.Latched?)
    {
      var allRetired := removed;
      if f.retireBarrier {
        Do(Barrier, if AllRetired(job, f) then RemoveRecord(job, f) else []);
      } else {
        allRetired := false;
      }
      assert allRetired == AllRetired(job, f);
      if !allRetired || !f.recordRemoved {
        cleanupPending := true;
        return Latched(RecoveryRequired);
      }
      Do(Unlink(Record(job.plan.target)), if f.finalBarrier then [Barrier] else []);
      if f.finalBarrier { Do(Barrier); }
      outcome := Merged;
    }

    /** Sources out of the catalogue, then out of the directory, then the record. */
    method RetireAll(job: Job, f: Fate) returns (outcome: Outcome)
      requires Logged() && Ascending(catalogue)
      requires f.build == Built && Catalogued(f)
      requires job.plan.target == highest + 1 && forall v :: v in catalogue ==> v <= highest
      requires job.plan.target !in job.plan.sources
      modifies this
      ensures Logged() && log == old(log) + RetireSources(job, f)
      ensures outcome == OutcomeOf(job, f) && cleanupPending == (old(cleanupPending) || outcome.Latched?)
      ensures Supersedes(catalogue, old(catalogue), job.plan.sources, job.plan.target)
      ensures highest == job.plan.target && Discharged(dirty, old(dirty), job.plan.sources)
    {
      Recatalogue(job.plan);
      var removed := RemoveSources(job.plan.sources, f.stuck);
      outcome := CloseRecord(job, f, removed);
    }

    /** The catalogue after a merge went this way. */
    twostate predicate Recatalogued(job: Job, f: Fate)
      reads this
    {
      if f.build == Built && Catalogued(f) then
        && Supersedes(catalogue, old(catalogue), job.plan.sources, job.plan.target)
        && highest == job.plan.target && Discharged(dirty, old(dirty), job.plan.sources)
      else
        catalogue == old(catalogue) && highest == old(highest) && dirty == old(dirty)
    }

    /** The publication was refused: withdraw the record, or stop here. */
    method WithdrawRecord(job: Job, f: Fate) returns (outcome: Outcome)
      requires Logged()
      requires NamesRecord(f) && f.recordBarrier && !f.published
      modifies this`disk, this`log, this`cleanupPending
      ensures Logged() && log == old(log) + Withdraw(job, f)
      ensures outcome == OutcomeOf(job, f) && cleanupPending == (old(cleanupPending) || outcome.Latched?)
    {
      if f.recordWithdrawn {
        Do(Unlink(Record(job.plan.target)), if f.withdrawBarrier then [Barrier] + Abandon(job, f) else []);
        if f.withdrawBarrier {
          Do(Barrier, Abandon(job, f));
          Discard(job, f);
          return Refused(Unpublished(f));
        }
      }
      cleanupPending := true;
      outcome := Latched(RecoveryRequired);
    }

    /** The target has its name: make it durable, check whose file it is, retire the sources. */
    method ConfirmAndRetire(job: Job, f: Fate) returns (outcome: Outcome)
      requires Logged() && Ascending(catalogue)
      requires NamesRecord(f) && f.recordBarrier && f.published
      requires job.plan.target == highest + 1 && forall v :: v in catalogue ==> v <= highest
      requires job.plan.target !in job.plan.sources
      modifies this
      ensures Logged() && log == old(log) + ClearStray(job, f)
      ensures outcome == OutcomeOf(job, f) && cleanupPending == (old(cleanupPending) || outcome.Latched?)
      ensures Recatalogued(job, f)
    {
      if f.strayRemoved { Do(Unlink(Building(job.plan.target)), ConfirmTarget(job, f)); }
      assert log + ConfirmTarget(job, f) == old(log) + ClearStray(job, f);
      if !f.targetBarrier { cleanupPending := true; return Latched(RecoveryRequired); }
      Do(Barrier, RetireSources(job, f));
      if !f.markerMatches { cleanupPending := true; return Latched(RecoveryFailed); }
      outcome := RetireAll(job, f);
    }

    /** The record is durable: publish the target. */
    method PublishTarget(job: Job, f: Fate) returns (outcome: Outcome)
      requires Logged() && Ascending(catalogue)
      requires NamesRecord(f) && f.recordBarrier
      requires job.plan.target == highest + 1 && forall v :: v in catalogue ==> v <= highest
      requires job.plan.target !in job.plan.sources
      modifies this
      ensures Logged() && log == old(log) + Publish(job, f)
      ensures outcome == OutcomeOf(job, f) && cleanupPending == (old(cleanupPending) || outcome.Latched?)
      ensures Recatalogued(job, f)
    {
      if f.published {
        Do(Link(Building(job.plan.target), Data(job.plan.target)), ClearStray(job, f));
        outcome := ConfirmAndRetire(job, f);
      } else {
        outcome := WithdrawRecord(job, f);
      }
    }

    /** The record has its name: make it durable, or stop here. */
    method MakeRecordDurable(job: Job, f: Fate) returns (outcome: Outcome)
      requires Logged() && Ascending(catalogue)
      requires NamesRecord(f)
      requires job.plan.target == highest + 1 && forall v :: v in catalogue ==> v <= highest
      requires job.plan.target !in job.plan.sources
      modifies this
      ensures Logged() && log == old(log) + ConfirmRecord(job, f)
      ensures outcome == OutcomeOf(job, f) && cleanupPending == (old(cleanupPending) || outcome.Latched?)
      ensures Recatalogued(job, f)
    {
      if f.recordBarrier {
        Do(Barrier, Publish(job, f));
        outcome := PublishTarget(job, f);
      } else {
        Discard(job, f);
        if f.recordTidied { Do(Unlink(Record(job.plan.target))); }
        cleanupPending := true;
        outcome := Latched(RecoveryRequired);
      }
    }

    /** `write_merge_sidecar`: a temporary, synced, renamed onto the record's name, confirmed. */
    method RecordPlan(job: Job, f: Fate) returns (outcome: Outcome)
      requires Logged() && Ascending(catalogue)
      requires f.build == Built && f.contentSynced
      requires job.plan.target == highest + 1 && forall v :: v in catalogue ==> v <= highest
      requires job.plan.target !in job.plan.sources
      modifies this
      ensures Logged() && log == old(log) + WriteRecord(job, f)
      ensures outcome == OutcomeOf(job, f) && cleanupPending == (old(cleanupPending) || outcome.Latched?)
      ensures Recatalogued(job, f)
    {
      var t := job.plan.target;
      if !f.recordWritten {
        Do(Create(RecordTmp(t), Scrap), DiscardTemp(job, f));
        DropTemporary(job, f);
        return Refused(MetadataWriteFailed);
      }
      Do(Create(RecordTmp(t), Sidecar(job.plan)), SyncRecord(job, f));
      if !f.recordSynced {
        DropTemporary(job, f);
        return Refused(SyncFailed);
      }
      Do(Fsync(RecordTmp(t)), NameRecord(job, f));
      if !f.recordNamed {
        DropTemporary(job, f);
        return Refused(RenameFailed);
      }
      Do(Rename(RecordTmp(t), Record(t)), ConfirmRecord(job, f));
      outcome := MakeRecordDurable(job, f);
    }

    method DropTemporary(job: Job, f: Fate)
      requires Logged()
      modifies this`disk, this`log
      ensures Logged() && log == old(log) + DiscardTemp(job, f)
    {
      if f.tempDiscarded { Do(Unlink(RecordTmp(job.plan.target))); }
      Discard(job, f);
    }

    /** Everything from the leftover of an earlier attempt on. */
    method Attempt(job: Job, f: Fate) returns (outcome: Outcome)
      requires Logged() && Ascending(catalogue)
      requires job.plan.target == highest + 1 && forall v :: v in catalogue ==> v <= highest
      requires job.plan.target !in job.plan.sources
      modifies this
      ensures Logged() && log == old(log) + MergeTrace(job, f)
      ensures outcome == OutcomeOf(job, f) && cleanupPending == (old(cleanupPending) || outcome.Latched?)
      ensures Recatalogued(job, f)
    {
      var building := Building(job.plan.target);
      if !(f.build.NotCreated? && !f.build.cleared) { Do(Unlink(building), BuildTarget(job, f)); }
      match f.build
      case NotCreated(_, why) =>
        Discard(job, f);
        outcome := Refused(why);
      case Partial(left, why) =>
        Do(Create(building, left), Abandon(job, f));
        Discard(job, f);
        outcome := Refused(why);
      case Built =>
        Do(Create(building, Rows(job.merged, Some(job.plan.id))), SyncTarget(job, f));
        if f.contentSynced {
          Do(Fsync(building), WriteRecord(job, f));
          outcome := RecordPlan(job, f);
        } else {
          Discard(job, f);
          outcome := Refused(SyncFailed);
        }
    }

    /** What is checked before anything is written. */
    method Check(plan: Plan, luck: Luck) returns (refusal: Option<Error>)
      requires Valid() && plan.id == luck.drawn
      ensures refusal == Objection(ViewOf(disk), plan, luck)
    {
      if luck.escapes.Some? && luck.escapes.value.after == 0 { return Some(FileOpenFailed); }
      if Data(plan.target) in ViewOf(disk) { return Some(IdentityCollision); }
      if luck.check.Some? { return luck.check; }
      if luck.drawn == 0 { return Some(EntropyUnavailable); }
      refusal := None;
    }

    /** The build: every entry of every source, or why not. */
    method GatherSources(sources: seq<nat>, luck: Luck) returns (build: Build, merged: Table)
      requires Valid() && Complete() && forall s :: s in sources ==> s in catalogue
      ensures build == Built ==> merged == MergedOf(Tables(ViewOf(disk)), sources)
      ensures ErrorMeans(if build == Built then Merged else Refused(build.why), luck, TablesAt(Served(), sources), limit)
      ensures build == Built ==> Joined(TablesAt(Served(), sources), limit)
    {
      var tables := TablesAt(Tables(ViewOf(disk)), sources);
      SourcesAreServed(ViewOf(disk), catalogue, sources);
      build, merged := luck.fate.build, map[];
      if build == Built {
        var moved := CollectEntries(tables, sources, luck.unreadable, limit, luck.throwsAt);
        MovedMeans(tables, limit, luck, sources, moved);
        if moved.Ok? { merged := moved.value; } else { build := Partial(luck.leftover, moved.error); }
      }
    }

    ghost function Now(): Snapshot
      reads this
    {
      Snapshot(disk, log, catalogue, highest, dirty, cleanupPending)
    }

    /** A build that was cut short never looks at what it would have held. */
    method AttemptAs(plan: Plan, merged: Table, f: Fate, ghost job: Job) returns (outcome: Outcome)
      requires Logged() && Ascending(catalogue)
      requires job.plan == plan && plan.target == highest + 1 && forall v :: v in catalogue ==> v <= highest
      requires plan.target !in plan.sources && (f.build == Built ==> merged == job.merged)
      modifies this
      ensures Logged() && log == old(log) + MergeTrace(job, f)
      ensures outcome == OutcomeOf(job, f) && cleanupPending == (old(cleanupPending) || outcome.Latched?)
      ensures Recatalogued(job, f)
    {
      SameTrace(Job(plan, merged), job, f);
      outcome := Attempt(Job(plan, merged), f);
    }

    /** The first steps of a merge. */
    method PerformSteps(trace: seq<Instr>, n: nat)
      requires Logged() && n <= |trace|
      modifies this`disk, this`log
      ensures Logged() && log == old(log) + trace[..n]
    {
      for i := 0 to n
        invariant Logged() && log == old(log) + trace[..i]
      {
        Do(trace[i]);
        assert trace[..i + 1] == trace[..i] + [trace[i]];
      }
    }

    /** The steps of `Attempt` up to where an exception leaves them. No handler stands between there and the caller of
        `merge_groups`, so nothing is undone and no latch is set. */
    method BreakOff(plan: Plan, merged: Table, luck: Luck, f: Fate, ghost job: Job)
      requires Logged() && Ascending(catalogue) && luck.escapes.Some?
      requires job.plan == plan && plan.target == highest + 1 && forall v :: v in catalogue ==> v <= highest
      requires plan.target !in plan.sources && (f.build == Built ==> merged == job.merged)
      modifies this`disk, this`log, this`catalogue, this`highest, this`dirty
      ensures Logged() && log == old(log) + StepsOf(job, f, luck)
      ensures ToldOrNot(old(Now()), Now(), job, f, luck)
    {
      var mine, e := Job(plan, merged), luck.escapes.value;
      SameSteps(mine, job, f, e);
      PerformSteps(MergeTrace(mine, f), StepsDone(mine, f, e));
      if TellsCatalogue(mine, f, e) {
        Recatalogue(plan);
      } else if OnlyIssues(mine, f, e) {
        highest := plan.target;
      }
    }

    /** The attempt, to its end or to where an exception leaves it. */
    method Proceed(plan: Plan, merged: Table, luck: Luck, f: Fate, ghost job: Job) returns (outcome: Outcome)
      requires Logged() && Ascending(catalogue)
      requires job.plan == plan && plan.target == highest + 1 && forall v :: v in catalogue ==> v <= highest
      requires plan.target !in plan.sources && (f.build == Built ==> merged == job.merged)
      modifies this
      ensures Logged() && log == old(log) + StepsOf(job, f, luck)
      ensures outcome == EndOf(job, f, luck) && cleanupPending == (old(cleanupPending) || outcome.Latched?)
      ensures ToldOrNot(old(Now()), Now(), job, f, luck)
    {
      if luck.escapes.Some? {
        BreakOff(plan, merged, luck, f, job);
        outcome := Thrown(FileOpenFailed);
      } else {
        outcome := AttemptAs(plan, merged, f, job);
      }
    }

    /** The attempt, and what it leaves. */
    method RunAttempt(plan: Plan, merged: Table, luck: Luck, f: Fate, ghost job: Job) returns (outcome: Outcome)
      requires Valid() && Complete() && !cleanupPending && NoRecord(ViewOf(disk))
      requires FitsView(job, ViewOf(disk)) && job.plan == plan && plan.target == highest + 1
      requires f.build == Built ==> merged == job.merged
      modifies this
      ensures Valid() && Went(old(Now()), Now(), job, f, luck, outcome)
      ensures Over(outcome) ==> NoRecord(ViewOf(disk))
      ensures NoRecord(ViewOf(disk)) && !outcome.Latched? ==> Complete()
    {
      outcome := Proceed(plan, merged, luck, f, job);
      WentLeaves(start, old(Now()), Now(), job, f, luck);
    }

    /** Safe to lose power in all along, and the next merge may start. */
    ghost predicate Guarded(model: CrashModel, g: Goal)
      reads this`disk, this`log, this`highest
    {
      WellFormed(start) && SafeAlong(model, start, log, g) && WellFormed(disk) && Calm(model, disk, highest + 1)
    }

    /** The same attempt, with its crash safety. */
    method RunMerge(plan: Plan, merged: Table, luck: Luck, f: Fate, ghost job: Job,
                    ghost guarded: bool, ghost model: CrashModel, ghost g: Goal)
      returns (outcome: Outcome)
      requires Valid() && Complete() && !cleanupPending && NoRecord(ViewOf(disk))
      requires FitsView(job, ViewOf(disk)) && job.plan == plan && plan.target == highest + 1
      requires f.build == Built ==> merged == job.merged
      requires guarded ==> Guarded(model, g) && |plan.sources| <= g.widest && (model == InOrder || f.finalBarrier)
      modifies this
      ensures Valid() && Went(old(Now()), Now(), job, f, luck, outcome)
      ensures Over(outcome) ==> NoRecord(ViewOf(disk))
      ensures NoRecord(ViewOf(disk)) && !outcome.Latched? ==> Complete()
      ensures guarded ==> SafeAlong(model, start, log, g) && (Over(outcome) ==> Guarded(model, g))
    {
      if guarded { GuardOn(model, start, log, disk, job, f, luck, g); }
      outcome := RunAttempt(plan, merged, luck, f, job);
      EndsTold(job, f, luck);
    }

    /** The part of a merge that writes: the sources gathered, then the attempt. */
    method GatherAndRun(plan: Plan, luck: Luck, ghost guarded: bool, ghost model: CrashModel, ghost g: Goal)
      returns (outcome: Outcome, ghost job: Job, ghost f: Fate)
      requires Valid() && Complete() && !cleanupPending && NoRecord(ViewOf(disk))
      requires Ascending(plan.sources) && |plan.sources| >= 2 && forall s :: s in plan.sources ==> s in catalogue
      requires plan.target == highest + 1 && plan.id != 0 && Data(plan.target) !in ViewOf(disk)
      requires guarded ==> Guarded(model, g) && |plan.sources| <= g.widest && (model == InOrder || luck.fate.finalBarrier)
      modifies this
      ensures Valid() && Went(old(Now()), Now(), job, f, luck, outcome) && job.plan == plan && f == luck.fate.(build := f.build)
      ensures Over(outcome) ==> NoRecord(ViewOf(disk))
      ensures NoRecord(ViewOf(disk)) && !outcome.Latched? ==> Complete()
      ensures guarded ==> SafeAlong(model, start, log, g) && (Over(outcome) ==> Guarded(model, g))
      ensures ErrorMeans(outcome, luck, TablesAt(old(Served()), plan.sources), limit)
      ensures f.build == Built ==> Joined(TablesAt(old(Served()), plan.sources), limit)
    {
      var build, merged := GatherSources(plan.sources, luck);
      job, f := Job(plan, MergedOf(Tables(ViewOf(disk)), plan.sources)), luck.fate.(build := build);
      JobFits(job, ViewOf(disk));
      outcome := RunMerge(plan, merged, luck, luck.fate.(build := build), job, guarded, model, g);
      OutcomeMeans(job, f, outcome, luck, TablesAt(old(Served()), plan.sources), limit);
    }

    /** `merge_versions`. `ran`: no check refused before anything was done. `guarded`: whether crash
        safety is being followed along. */
    method MergeVersions(sources: seq<nat>, luck: Luck, ghost guarded: bool, ghost model: CrashModel, ghost g: Goal)
      returns (outcome: Outcome, ghost ran: bool, ghost job: Job, ghost f: Fate)
      requires Valid() && Complete() && !cleanupPending && NoRecord(ViewOf(disk))
      requires Ascending(sources) && |sources| >= 2 && forall s :: s in sources ==> s in catalogue
      requires guarded ==> Guarded(model, g) && |sources| <= g.widest && (model == InOrder || luck.fate.finalBarrier)
      modifies this
      ensures Valid()
      ensures guarded ==> SafeAlong(model, start, log, g) && (Over(outcome) ==> Guarded(model, g))
      ensures job.plan == Plan(old(highest) + 1, luck.drawn, sources) && f == luck.fate.(build := f.build)
      ensures ran <==> Objection(ViewOf(old(disk)), job.plan, luck).None?
      ensures if ran then Went(old(Now()), Now(), job, f, luck, outcome)
              else Now() == old(Now()) && outcome == Refused(Objection(ViewOf(old(disk)), job.plan, luck).value)
      ensures Over(outcome) ==> NoRecord(ViewOf(disk))
      ensures NoRecord(ViewOf(disk)) && !outcome.Latched? ==> Complete()
      ensures ErrorMeans(outcome, luck, TablesAt(old(Served()), sources), limit)
      ensures ran && f.build == Built ==> Joined(TablesAt(old(Served()), sources), limit)
      ensures ran && luck.escapes.None? ==> Tidying.Leavings(ViewOf(old(disk)), ViewOf(disk), job, f)
    {
      var plan := Plan(highest + 1, luck.drawn, sources);
      var refusal := Check(plan, luck);
      if refusal.Some? { return Refused(refusal.value), false, Job(plan, map[]), luck.fate; }
      ran := true;
      outcome, job, f := GatherAndRun(plan, luck, guarded, model, g);
      WentTidies(start, old(Now()), Now(), job, f, luck, outcome);
    }

    /** One attempt, by what it told the catalogue. */
    method TryMerge(sources: seq<nat>, luck: Luck, ghost guarded: bool, ghost model: CrashModel, ghost g: Goal)
      returns (outcome: Outcome, ghost job: Job, ghost told: bool)
      requires Valid() && Complete() && !cleanupPending && NoRecord(ViewOf(disk))
      requires Ascending(sources) && |sources| >= 2 && forall s :: s in sources ==> s in catalogue
      requires guarded ==> Guarded(model, g) && |sources| <= g.widest && (model == InOrder || luck.fate.finalBarrier)
      modifies this
      ensures Valid() && cleanupPending == outcome.Latched?
      ensures guarded ==> SafeAlong(model, start, log, g) && (Over(outcome) ==> Guarded(model, g))
      ensures Over(outcome) ==> NoRecord(ViewOf(disk))
      ensures NoRecord(ViewOf(disk)) && !outcome.Latched? ==> Complete()
      ensures job.plan.target == old(highest) + 1 && job.plan.sources == sources
      ensures Supplants(old(Served()), Served(), old(catalogue), catalogue, old(dirty), dirty, job, told)
      ensures if told then highest == job.plan.target else highest >= old(highest) && (!outcome.Thrown? ==> highest == old(highest))
      ensures (outcome.Merged? ==> told) && (outcome.Refused? ==> !told)
      ensures told ==> Joined(TablesAt(old(Served()), sources), limit)
      ensures ErrorMeans(outcome, luck, TablesAt(old(Served()), sources), limit)
      ensures EscapeShows(luck, outcome)
    {
      ghost var ran, f;
      outcome, ran, job, f := MergeVersions(sources, luck, guarded, model, g);
      told := ran && Tells(job, f, luck);
      if ran { WentSupplants(old(Now()), Now(), job, f, luck, outcome); }
    }

    /** One attempt at one group. `moved`: the version the sources gave way to, whatever came after that. */
    method TryGroup(sources: seq<nat>, luck: Luck, ghost guarded: bool, ghost model: CrashModel, ghost g: Goal)
      returns (outcome: Outcome, ghost moved: Option<nat>)
      requires Valid() && Complete() && !cleanupPending && NoRecord(ViewOf(disk))
      requires Ascending(sources) && |sources| >= 2 && forall s :: s in sources ==> s in catalogue
      requires guarded ==> Guarded(model, g) && |sources| <= g.widest && (model == InOrder || luck.fate.finalBarrier)
      modifies this
      ensures Valid() && cleanupPending == outcome.Latched?
      ensures guarded ==> SafeAlong(model, start, log, g) && (Over(outcome) ==> Guarded(model, g))
      ensures Over(outcome) ==> Complete() && NoRecord(ViewOf(disk))
      ensures Registers(old(catalogue), catalogue, old(dirty), dirty, old(highest)) && highest >= old(highest)
      ensures GroupMoved(old(Served()), Served(), old(catalogue), catalogue, sources, moved, old(highest), outcome)
      ensures moved.None? && !outcome.Thrown? ==> dirty == old(dirty) && highest == old(highest)
      ensures moved.Some? ==> Joined(TablesAt(old(Served()), sources), limit)
      ensures ErrorMeans(outcome, luck, TablesAt(old(Served()), sources), limit)
      ensures EscapeShows(luck, outcome) && (NoRecord(ViewOf(disk)) && !outcome.Latched? ==> Complete())
    {
      ghost var job, told;
      outcome, job, told := TryMerge(sources, luck, guarded, model, g);
      moved := if told then Some(job.plan.target) else None;
      GroupIsMoved(old(Served()), Served(), old(catalogue), catalogue, old(dirty), dirty, job, old(highest), told, outcome);
    }

    /** One attempt at the run of versions from `first` up to `end`. */
    method TryRun(versions: seq<nat>, first: nat, end: nat, luck: Luck, ghost before: map<nat, Table>,
                  ghost guarded: bool, ghost model: CrashModel, ghost g: Goal)
      returns (outcome: Outcome, ghost moved: Option<nat>)
      requires Valid() && Complete() && !cleanupPending && NoRecord(ViewOf(disk))
      requires Ascending(versions) && first + 2 <= end <= |versions|
      requires Left(before, Served(), versions, first)
      requires guarded ==> Guarded(model, g) && |versions| <= g.widest && (model == InOrder || luck.fate.finalBarrier)
      modifies this
      ensures Valid() && cleanupPending == outcome.Latched?
      ensures guarded ==> SafeAlong(model, start, log, g) && (Over(outcome) ==> Guarded(model, g))
      ensures Over(outcome) ==> Complete() && NoRecord(ViewOf(disk))
      ensures Registers(old(catalogue), catalogue, old(dirty), dirty, old(highest)) && highest >= old(highest)
      ensures Moved(old(Served()), Served(), versions[first..end], moved, old(highest))
      ensures |catalogue| == |old(catalogue)| - (if moved.Some? then end - first - 1 else 0)
      ensures moved.None? && !outcome.Thrown? ==> catalogue == old(catalogue) && dirty == old(dirty) && highest == old(highest)
      ensures RunSettled(Sizes(before, versions), limit, first, end, outcome, moved)
      ensures outcome.Refused? ==> moved.None?
      ensures RunAnswers(before, versions, first, end, outcome, luck, limit)
      ensures EscapeShows(luck, outcome) && (NoRecord(ViewOf(disk)) && !outcome.Latched? ==> Complete())
    {
      RunIsGroup(before, Served(), versions, first, end);
      outcome, moved := TryGroup(versions[first..end], luck, guarded, model, g);
      RunMeans(before, versions, first, end, outcome, moved, luck, limit);
      GroupIsRun(Sizes(before, versions), limit, first, end, outcome, moved);
    }

    /** The longest run from `first` that merges. A run of one is a version left as it is. */
    method LongestRun(versions: seq<nat>, first: nat, lucks: nat -> Luck, tried: nat, ghost before: map<nat, Table>,
                      ghost guarded: bool, ghost model: CrashModel, ghost g: Goal)
      returns (end: nat, outcome: Outcome, tries: nat, ghost moved: Option<nat>)
      requires Valid() && Complete() && !cleanupPending && NoRecord(ViewOf(disk))
      requires Ascending(versions) && first < |versions|
      requires Left(before, Served(), versions, first)
      requires guarded ==> Guarded(model, g) && |versions| <= g.widest
      requires guarded ==> model == InOrder || AlwaysConfirmed(lucks)
      modifies this
      ensures Valid() && first < end <= |versions| && cleanupPending == outcome.Latched?
      ensures guarded ==> SafeAlong(model, start, log, g) && (Over(outcome) ==> Guarded(model, g))
      ensures Over(outcome) ==> Complete() && NoRecord(ViewOf(disk))
      ensures Registers(old(catalogue), catalogue, old(dirty), dirty, old(highest)) && highest >= old(highest)
      ensures Moved(old(Served()), Served(), versions[first..end], moved, old(highest))
      ensures |catalogue| == |old(catalogue)| - (if moved.Some? then end - first - 1 else 0)
      ensures RunSettled(Sizes(before, versions), limit, first, end, outcome, moved)
      ensures AlwaysCapacityOnly(lucks) ==> TooMany(Sizes(before, versions), limit, first, end)
      ensures AlwaysSmooth(lucks) && RowApart(before, versions) ==> outcome == Merged || outcome == Refused(IdentityCollision)
      ensures tries >= tried && Escapes(lucks, tried, tries, outcome) && (NoRecord(ViewOf(disk)) && !outcome.Latched? ==> Complete())
    {
      end, tries, moved := |versions|, tried, None;
      while end - first >= 2
        invariant first < end <= |versions|
        invariant Valid() && Complete() && !cleanupPending && NoRecord(ViewOf(disk))
        invariant Served() == old(Served()) && catalogue == old(catalogue) && moved.None?
        invariant dirty == old(dirty) && highest == old(highest)
        invariant guarded ==> Guarded(model, g)
        invariant AlwaysCapacityOnly(lucks) ==> TooMany(Sizes(before, versions), limit, first, end)
        invariant tries >= tried && Escapes(lucks, tried, tries, Merged)
      {
        outcome, moved := TryRun(versions, first, end, lucks(tries), before, guarded, model, g);
        EscapesOn(lucks, tried, tries, outcome);
        tries := tries + 1;
        if outcome != Refused(InsufficientSpace) { return; }
        ShorterRun(Sizes(before, versions), limit, first, end);
        end := end - 1;
      }
      SingleFits(Sizes(before, versions), limit, first, end);
      outcome := Merged;
    }

    /** One run more: the longest from `first`, and what that makes of the account so far. */
    method NextRun(versions: seq<nat>, first: nat, lucks: nat -> Luck, tried: nat, ghost account: Account,
                   ghost guarded: bool, ghost model: CrashModel, ghost g: Goal)
      returns (end: nat, outcome: Outcome, tries: nat, ghost next: Account)
      requires Valid() && Complete() && !cleanupPending && NoRecord(ViewOf(disk))
      requires Accounts(account, Served(), versions, |catalogue|, limit) && first == Reached(account) < |versions|
      requires highest >= account.top
      requires guarded ==> Guarded(model, g) && |versions| <= g.widest
      requires guarded ==> model == InOrder || AlwaysConfirmed(lucks)
      modifies this
      ensures Valid() && first < end <= |versions| && cleanupPending == outcome.Latched?
      ensures guarded ==> SafeAlong(model, start, log, g) && (Over(outcome) ==> Guarded(model, g))
      ensures Over(outcome) ==> Complete() && NoRecord(ViewOf(disk))
      ensures Registers(old(catalogue), catalogue, old(dirty), dirty, old(highest)) && highest >= old(highest)
      ensures Accounts(next, Served(), versions, |catalogue|, limit) && next.before == account.before && next.top == account.top
      ensures outcome.Merged? ==> Reached(next) == end
      ensures AlwaysCapacityOnly(lucks) && outcome.Merged? && Longest(Sizes(account.before, versions), limit, account.cuts) ==>
                Longest(Sizes(account.before, versions), limit, next.cuts)
      ensures AlwaysSmooth(lucks) && RowApart(account.before, versions) ==> outcome == Merged || outcome == Refused(IdentityCollision)
      ensures tries >= tried && Escapes(lucks, tried, tries, outcome) && (NoRecord(ViewOf(disk)) && !outcome.Latched? ==> Complete())
    {
      ghost var was, files, higher := Served(), |catalogue|, highest;
      ghost var moved;
      end, outcome, tries, moved := LongestRun(versions, first, lucks, tried, account.before, guarded, model, g);
      next := Accounted(account, versions, end, outcome, moved);
      AccountOn(account, was, Served(), versions, files, |catalogue|, limit, end, outcome, moved, higher);
    }

    /** `merge_groups`: the longest run of versions that can be merged, then the next. The account says
        where the runs it settled on begin and end and which version each of them is now. */
    method MergeGroups(lucks: nat -> Luck, ghost guarded: bool, ghost model: CrashModel, ghost g: Goal)
      returns (failure: Option<Error>, ghost account: Account, ghost attempts: nat, ghost thrown: bool)
      requires Valid() && Complete() && !cleanupPending && NoRecord(ViewOf(disk))
      requires guarded ==> Guarded(model, g) && |catalogue| <= g.widest
      requires guarded ==> model == InOrder || AlwaysConfirmed(lucks)
      modifies this
      ensures Valid() && (cleanupPending ==> failure.Some?)
      ensures !cleanupPending && !thrown ==> Complete() && NoRecord(ViewOf(disk))
      ensures thrown ==> failure == Some(FileOpenFailed) && !cleanupPending && (NoRecord(ViewOf(disk)) ==> Complete())
      ensures guarded ==> SafeAlong(model, start, log, g) && (!cleanupPending && !thrown ==> Guarded(model, g))
      ensures Registers(old(catalogue), catalogue, old(dirty), dirty, old(highest)) && highest >= old(highest)
      ensures account.before == old(Served()) && account.top == old(highest)
      ensures Accounts(account, Served(), old(catalogue), |catalogue|, limit)
      ensures Compacts(account, old(catalogue), limit, lucks, failure, |catalogue|)
      ensures EscapeAnswers(lucks, attempts, failure)
    {
      var versions := catalogue;
      account := Account(Served(), [0], [], highest);
      AccountAtFirst(Served(), versions, highest, limit);
      failure, thrown := None, false;
      var first, tries := 0, 0;
      attempts := 0;
      while first < |versions|
        invariant first <= |versions| && Valid() && Complete() && !cleanupPending && NoRecord(ViewOf(disk))
        invariant Accounts(account, Served(), versions, |catalogue|, limit) && first == Reached(account)
        invariant account.before == old(Served()) && account.top == old(highest)
        invariant Registers(old(catalogue), catalogue, old(dirty), dirty, old(highest)) && highest >= old(highest)
        invariant guarded ==> Guarded(model, g)
        invariant AlwaysCapacityOnly(lucks) ==> Longest(Sizes(account.before, versions), limit, account.cuts)
        invariant attempts == tries && Escapes(lucks, 0, tries, Merged)
      {
        var end, outcome;
        ghost var mid, register, top := catalogue, dirty, highest;
        end, outcome, tries, account := NextRun(versions, first, lucks, tries, account, guarded, model, g);
        RegistersOn(old(catalogue), mid, catalogue, old(dirty), register, dirty, old(highest), top);
        attempts := tries;
        if !outcome.Merged? { return Some(outcome.why), account, attempts, outcome.Thrown?; }
        first := end;
      }
      if AlwaysCapacityOnly(lucks) { FewestRuns(Sizes(account.before, versions), limit, account.cuts); }
    }
  }

  /** The active map of a class, around its compaction. `latched` is `cleanup_pending_` as the instance has it
      once the container has been through. */
  class Container {
    const compactor: Compactor
    var mapped: bool
    var latched: bool

    constructor (compactor: Compactor)
      ensures this.compactor == compactor && mapped && !latched
    {
      this.compactor, mapped, latched := compactor, true, false;
    }

    /** `compact_container`: the active version is closed, the groups are merged, and whatever came of
        that a version is opened again. Without one the instance has nothing to serve from and latches. A failed
        merge is the answer before a failed reopening. */
    method CompactContainer(lucks: nat -> Luck, lost: Option<Error>, ghost guarded: bool, ghost model: CrashModel, ghost g: Goal)
      returns (failure: Option<Error>, ghost merging: Option<Error>, ghost account: Account, ghost attempts: nat, ghost thrown: bool)
      requires compactor.Valid() && compactor.Complete() && !compactor.cleanupPending && NoRecord(ViewOf(compactor.disk))
      requires guarded ==> compactor.Guarded(model, g) && |compactor.catalogue| <= g.widest
      requires guarded ==> model == InOrder || AlwaysConfirmed(lucks)
      modifies this, compactor
      ensures compactor.Valid() && failure == (if merging.Some? then merging else lost)
      ensures mapped == lost.None? && latched == (compactor.cleanupPending || lost.Some?) && (latched ==> failure.Some?)
      ensures !compactor.cleanupPending && !thrown ==> compactor.Complete() && NoRecord(ViewOf(compactor.disk))
      ensures thrown ==> failure == Some(FileOpenFailed) && latched == lost.Some?
      ensures thrown && NoRecord(ViewOf(compactor.disk)) ==> compactor.Complete()
      ensures guarded ==> SafeAlong(model, compactor.start, compactor.log, g)
      ensures account.before == old(compactor.Served()) && account.top == old(compactor.highest)
      ensures Accounts(account, compactor.Served(), old(compactor.catalogue), |compactor.catalogue|, compactor.limit)
      ensures Compacts(account, old(compactor.catalogue), compactor.limit, lucks, merging, |compactor.catalogue|)
      ensures EscapeAnswers(lucks, attempts, failure)
    {
      mapped := false;
      failure, account, attempts, thrown := compactor.MergeGroups(lucks, guarded, model, g);
      merging := failure;
      mapped, latched := lost.None?, compactor.cleanupPending || lost.Some?;
      if failure.None? { failure := lost; }
    }
  }

  /** What one merge made of the catalogue, its tables and its part of the register. */
  ghost predicate Supplants(before: map<nat, Table>, after: map<nat, Table>, was: seq<nat>, catalogue: seq<nat>, owed: set<nat>, dirty: set<nat>,
                            job: Job, told: bool) {
    if told then
      && Supersedes(catalogue, was, job.plan.sources, job.plan.target) && Discharged(dirty, owed, job.plan.sources)
      && (forall s :: s in job.plan.sources ==> s in before)
      && after == Replaced(before, job.plan.sources, job.plan.target)
    else catalogue == was && dirty == owed && after == before
  }

  lemma WentSupplants(a: Snapshot, b: Snapshot, job: Job, f: Fate, luck: Luck, outcome: Outcome)
    requires Went(a, b, job, f, luck, outcome)
    requires forall s :: s in job.plan.sources ==> s in TablesOfCatalogue(ViewOf(a.disk), a.catalogue)
    ensures Supplants(TablesOfCatalogue(ViewOf(a.disk), a.catalogue), TablesOfCatalogue(ViewOf(b.disk), b.catalogue),
                      a.catalogue, b.catalogue, a.dirty, b.dirty, job, Tells(job, f, luck))
    ensures if Tells(job, f, luck) then b.highest == job.plan.target else b.highest >= a.highest && (!outcome.Thrown? ==> b.highest == a.highest)
    ensures (outcome.Merged? ==> Tells(job, f, luck)) && (outcome.Refused? ==> !Tells(job, f, luck))
    ensures b.cleanup == outcome.Latched? && (outcome.Thrown? ==> outcome.why == FileOpenFailed)
    ensures Leaves(luck) ==> outcome == Thrown(FileOpenFailed)
    ensures f.build == Built || !Tells(job, f, luck)
  {
    EndsTold(job, f, luck);
  }

  lemma GroupIsMoved(before: map<nat, Table>, after: map<nat, Table>, was: seq<nat>, catalogue: seq<nat>, owed: set<nat>, dirty: set<nat>,
                     job: Job, top: nat, told: bool, outcome: Outcome)
    requires Ascending(was) && Ascending(job.plan.sources) && (forall s :: s in job.plan.sources ==> s in was)
    requires job.plan.target == top + 1 && (forall v :: v in was ==> v <= top) && forall v :: v in before ==> v in was
    requires Supplants(before, after, was, catalogue, owed, dirty, job, told) && (told ==> Disjoint(TablesAt(before, job.plan.sources)))
    requires (forall v :: v in owed ==> v in was) && (outcome.Merged? ==> told) && (outcome.Refused? ==> !told)
    ensures Registers(was, catalogue, owed, dirty, top)
    ensures GroupMoved(before, after, was, catalogue, job.plan.sources, if told then Some(job.plan.target) else None, top, outcome)
  {
    if told { SupersedesCount(catalogue, was, job.plan.sources, job.plan.target); }
  }

  /** The merge was not stopped part of the way. */
  predicate Over(outcome: Outcome) { outcome.Merged? || outcome.Refused? }

  /** An exception leaves this attempt, unless the name of the target is taken. */
  predicate Leaves(luck: Luck) {
    luck.escapes.Some? && (luck.escapes.value.after == 0 || (luck.check.None? && luck.drawn != 0))
  }

  /** What an attempt that an exception left is answered by. */
  predicate AnsweredBy(luck: Luck, why: Error) {
    why == FileOpenFailed || (luck.escapes.Some? && luck.escapes.value.after > 0 && why == IdentityCollision)
  }

  predicate EscapeShows(luck: Luck, outcome: Outcome) {
    && (Leaves(luck) ==> !outcome.Merged? && !outcome.Latched? && AnsweredBy(luck, outcome.why))
    && (outcome.Thrown? ==> outcome.why == FileOpenFailed)
  }

  /** An attempt that an exception left was the last one, and is what the run answers. */
  ghost predicate Escapes(lucks: nat -> Luck, tried: nat, tries: nat, outcome: Outcome) {
    && (forall k :: tried <= k < tries && Leaves(lucks(k)) ==> !outcome.Merged? && AnsweredBy(lucks(k), outcome.why))
    && (outcome.Thrown? ==> outcome.why == FileOpenFailed)
  }

  lemma EscapesOn(lucks: nat -> Luck, tried: nat, tries: nat, outcome: Outcome)
    requires tried <= tries && Escapes(lucks, tried, tries, Merged) && EscapeShows(lucks(tries), outcome)
    ensures Escapes(lucks, tried, tries + 1, outcome)
    ensures outcome == Refused(InsufficientSpace) ==> Escapes(lucks, tried, tries + 1, Merged)
  {
  }

  /** No exception is swallowed: of the attempts that were made, one that an exception left is the answer, wherever it
      left it. */
  ghost predicate EscapeAnswers(lucks: nat -> Luck, attempts: nat, failure: Option<Error>) {
    forall k :: 0 <= k < attempts && Leaves(lucks(k)) ==> failure.Some? && AnsweredBy(lucks(k), failure.value)
  }

  /** Sources that fit together and share no key. */
  ghost predicate Joined(tables: seq<Table>, limit: nat) { Disjoint(tables) && Copies(tables) <= limit }

  /** What one attempt at a group did to the class. */
  ghost predicate GroupMoved(before: map<nat, Table>, after: map<nat, Table>, was: seq<nat>, catalogue: seq<nat>,
                             sources: seq<nat>, moved: Option<nat>, top: nat, outcome: Outcome) {
    && Moved(before, after, sources, moved, top)
    && (outcome.Merged? ==> moved.Some?) && (outcome.Refused? ==> moved.None?)
    && (moved.None? ==> catalogue == was) && (moved.Some? ==> |catalogue| + |sources| == |was| + 1)
  }

  ghost predicate RunAnswers(before: map<nat, Table>, versions: seq<nat>, first: nat, end: nat,
                             outcome: Outcome, luck: Luck, limit: nat) {
    && first <= end <= |versions|
    && (outcome == Refused(InsufficientSpace) && CapacityOnly(luck) ==> !Fits(Sizes(before, versions), limit, first, end))
    && (Smooth(luck) && RowApart(before, versions) ==> Awaited(outcome))
  }

  /** A run that was settled on: one version left as it is, or several merged. */
  ghost predicate RunSettled(sizes: seq<nat>, limit: nat, first: nat, end: nat, outcome: Outcome, moved: Option<nat>) {
    && first < end <= |sizes|
    && (moved.Some? ==> end - first >= 2)
    && (outcome.Merged? ==> (moved.None? <==> end == first + 1))
    && (outcome.Merged? || moved.Some? ==> Fits(sizes, limit, first, end))
  }

  lemma GroupIsRun(sizes: seq<nat>, limit: nat, first: nat, end: nat, outcome: Outcome, moved: Option<nat>)
    requires first + 2 <= end <= |sizes| && (outcome.Merged? ==> moved.Some?)
    requires moved.Some? ==> Fits(sizes, limit, first, end)
    ensures RunSettled(sizes, limit, first, end, outcome, moved)
  {
  }

  function Accounted(a: Account, versions: seq<nat>, end: nat, outcome: Outcome, moved: Option<nat>): Account {
    if moved.Some? then a.(cuts := a.cuts + [end], made := a.made + [moved.value])
    else if outcome.Merged? && Reached(a) < |versions| then a.(cuts := a.cuts + [end], made := a.made + [versions[Reached(a)]])
    else a
  }

  lemma AccountOn(a: Account, was: map<nat, Table>, now: map<nat, Table>, versions: seq<nat>, files: nat, after: nat, limit: nat,
                  end: nat, outcome: Outcome, moved: Option<nat>, higher: nat)
    requires Accounts(a, was, versions, files, limit) && Reached(a) < end <= |versions| && a.top <= higher
    requires Moved(was, now, versions[Reached(a)..end], moved, higher)
    requires after == files - (if moved.Some? then end - Reached(a) - 1 else 0)
    requires RunSettled(Sizes(a.before, versions), limit, Reached(a), end, outcome, moved)
    ensures Accounts(Accounted(a, versions, end, outcome, moved), now, versions, after, limit)
    ensures outcome.Merged? ==> Reached(Accounted(a, versions, end, outcome, moved)) == end
    ensures outcome.Merged? && Longest(Sizes(a.before, versions), limit, a.cuts) && TooMany(Sizes(a.before, versions), limit, Reached(a), end) ==>
              Longest(Sizes(a.before, versions), limit, Accounted(a, versions, end, outcome, moved).cuts)
  {
    MovedConserves(a.before, was, now, versions[Reached(a)..end], moved, higher);
    if moved.Some? {
      AccountMerged(a, was, now, versions, files, limit, end, moved.value, higher);
    } else if outcome.Merged? {
      AccountSingle(a, was, versions, files, limit);
    }
  }

  lemma AccountMerged(a: Account, was: map<nat, Table>, now: map<nat, Table>, versions: seq<nat>, files: nat, limit: nat, end: nat, t: nat, higher: nat)
    requires Accounts(a, was, versions, files, limit) && Reached(a) + 2 <= end <= |versions| && a.top <= higher && Conserved(a.before, now)
    requires Merges(was, now, versions[Reached(a)..end], t, higher) && Fits(Sizes(a.before, versions), limit, Reached(a), end)
    ensures Accounts(a.(cuts := a.cuts + [end], made := a.made + [t]), now, versions, files - (end - Reached(a) - 1), limit)
    ensures Longest(Sizes(a.before, versions), limit, a.cuts) && TooMany(Sizes(a.before, versions), limit, Reached(a), end) ==>
              Longest(Sizes(a.before, versions), limit, a.cuts + [end])
  {
    ConsumedMore(a.before, was, now, versions, a.cuts, a.made, a.top, end, t, higher);
    CutAgain(Sizes(a.before, versions), limit, a.cuts, Reached(a), end);
  }

  lemma AccountSingle(a: Account, now: map<nat, Table>, versions: seq<nat>, files: nat, limit: nat)
    requires Accounts(a, now, versions, files, limit) && Reached(a) < |versions|
    ensures Accounts(a.(cuts := a.cuts + [Reached(a) + 1], made := a.made + [versions[Reached(a)]]), now, versions, files, limit)
    ensures Longest(Sizes(a.before, versions), limit, a.cuts) && TooMany(Sizes(a.before, versions), limit, Reached(a), Reached(a) + 1) ==>
              Longest(Sizes(a.before, versions), limit, a.cuts + [Reached(a) + 1])
  {
    ConsumedOne(a.before, now, versions, a.cuts, a.made, a.top);
    SingleFits(Sizes(a.before, versions), limit, Reached(a), Reached(a) + 1);
    CutAgain(Sizes(a.before, versions), limit, a.cuts, Reached(a), Reached(a) + 1);
  }

  /** What merging the groups of a class comes to. `files`: how many versions it has afterwards. */
  ghost predicate Compacts(a: Account, versions: seq<nat>, limit: nat, lucks: nat -> Luck, failure: Option<Error>, files: nat) {
    && (failure.None? ==> Reached(a) == |versions|)
    && (failure.None? && AlwaysCapacityOnly(lucks) ==>
          Longest(Sizes(a.before, versions), limit, a.cuts) && Fewest(Sizes(a.before, versions), limit, files))
    && (AlwaysSmooth(lucks) && RowApart(a.before, versions) ==> failure.None? || failure == Some(IdentityCollision))
  }

  lemma ErrorMeansCopies(outcome: Outcome, luck: Luck, tables: seq<Table>, limit: nat)
    requires ErrorMeans(outcome, luck, tables, limit)
    ensures outcome.Merged? ==> Copies(tables) <= limit
    ensures outcome == Refused(InsufficientSpace) && CapacityOnly(luck) ==> Copies(tables) > limit
  {
    SharedKeysAreFewer(tables);
  }

  /** The answers that leave `merge_groups` going, and the one no caller can rule out. */
  predicate Awaited(outcome: Outcome) {
    outcome.Merged? || outcome == Refused(InsufficientSpace) || outcome == Refused(IdentityCollision)
  }

  lemma RunMeans(before: map<nat, Table>, versions: seq<nat>, first: nat, end: nat, outcome: Outcome, moved: Option<nat>, luck: Luck, limit: nat)
    requires first + 2 <= end <= |versions|
    requires ErrorMeans(outcome, luck, TablesAt(before, versions[first..end]), limit)
    requires moved.Some? ==> Joined(TablesAt(before, versions[first..end]), limit)
    ensures RunAnswers(before, versions, first, end, outcome, luck, limit)
    ensures moved.Some? ==> Fits(Sizes(before, versions), limit, first, end)
  {
    if RowApart(before, versions) { RunApart(before, versions, first, end); }
    ErrorMeansCopies(outcome, luck, TablesAt(before, versions[first..end]), limit);
    FitsWhenCopiesDo(before, versions, limit, first, end);
  }

  lemma RegistersOn(a: seq<nat>, b: seq<nat>, c: seq<nat>, was: set<nat>, mid: set<nat>, now: set<nat>, top: nat, higher: nat)
    requires Registers(a, b, was, mid, top) && Registers(b, c, mid, now, higher)
    requires top <= higher && forall v :: v in a ==> v <= top
    ensures Registers(a, c, was, now, top)
  {
  }

  function SetOf(s: seq<nat>): (r: set<nat>)
    ensures forall x :: x in r <==> x in s
  {
    set x | x in s
  }

  lemma ApartSize(a: set<nat>, b: set<nat>)
    requires forall x :: x in a ==> x !in b
    ensures |a + b| == |a| + |b|
  {
    assert a * b == {};
  }

  lemma {:induction false} AscendingCount(s: seq<nat>)
    requires Ascending(s)
    ensures |SetOf(s)| == |s|
  {
    if s != [] {
      var init, last := s[..|s| - 1], s[|s| - 1];
      assert s == init + [last];
      AscendingCount(init);
      assert last !in init;
      assert SetOf(s) == SetOf(init) + {last};
    }
  }

  lemma SupersedesCount(after: seq<nat>, before: seq<nat>, sources: seq<nat>, t: nat)
    requires Supersedes(after, before, sources, t) && Ascending(before) && Ascending(sources)
    requires t !in before && forall s :: s in sources ==> s in before
    ensures |after| + |sources| == |before| + 1
  {
    AscendingCount(after);
    AscendingCount(before);
    AscendingCount(sources);
    var kept := SetOf(before) - SetOf(sources);
    assert SetOf(after) == kept + {t};
    assert SetOf(before) == kept + SetOf(sources);
    ApartSize(kept, {t});
    ApartSize(kept, SetOf(sources));
  }

  lemma CataloguedOutcome(job: Job, f: Fate)
    ensures OutcomeOf(job, f).Merged? ==> f.build == Built && Catalogued(f)
    ensures OutcomeOf(job, f).Refused? ==> !(f.build == Built && Catalogued(f))
  {
  }

  /** A merge carries crash safety on. */
  lemma GuardAlong(model: CrashModel, start: Disk, log: seq<Instr>, d: Disk, job: Job, f: Fate, g: Goal)
    requires WellFormed(start) && SafeAlong(model, start, log, g) && d == Exec(start, log)
    requires Calm(model, d, job.plan.target) && FitsView(job, ViewOf(d)) && |job.plan.sources| <= g.widest
    requires model == InOrder || f.finalBarrier
    ensures SafeAlong(model, start, log + MergeTrace(job, f), g)
    ensures !OutcomeOf(job, f).Latched? ==>
              Calm(model, Exec(start, log + MergeTrace(job, f)),
                   if OutcomeOf(job, f).Merged? then job.plan.target + 1 else job.plan.target)
  {
    SafeAtEveryCut(model, start, log, g, |log|);
    assert log[..|log|] == log;
    CalmIsQuiet(model, d, job.plan.target);
    MergeIsSafe(model, d, job, f, g);
    SafeAlongConcat(model, start, log, MergeTrace(job, f), g);
    ExecConcat(start, log, MergeTrace(job, f));
    if !OutcomeOf(job, f).Latched? { CalmAfterMerge(model, d, job, f, g); }
  }

  /** What the catalogue serves, told of the merge or not. */
  ghost function ServedAfter(before: map<nat, Table>, job: Job, told: bool): map<nat, Table> {
    if told && forall s :: s in job.plan.sources ==> s in before then Replaced(before, job.plan.sources, job.plan.target) else before
  }

  lemma SameSteps(a: Job, b: Job, f: Fate, e: Escape)
    requires a.plan == b.plan && (f.build == Built ==> a.merged == b.merged)
    ensures MergeTrace(a, f) == MergeTrace(b, f) && StepsDone(a, f, e) == StepsDone(b, f, e)
    ensures TellsCatalogue(a, f, e) == TellsCatalogue(b, f, e) && OnlyIssues(a, f, e) == OnlyIssues(b, f, e)
  {
    SameTrace(a, b, f);
  }

  lemma {:induction false} SafeAlongCut(model: CrashModel, d: Disk, trace: seq<Instr>, g: Goal, k: nat)
    requires SafeAlong(model, d, trace, g) && k <= |trace|
    ensures SafeAlong(model, d, trace[..k], g)
    decreases |trace|
  {
    if k > 0 {
      assert trace[..k][0] == trace[0] && trace[..k][1..] == trace[1..][..k - 1];
      StepSees(d, trace[0]);
      SafeAlongCut(model, Step(d, trace[0]), trace[1..], g, k - 1);
    }
  }

  /** A merge cut off carries crash safety on. */
  lemma GuardAlongCut(model: CrashModel, start: Disk, log: seq<Instr>, d: Disk, job: Job, f: Fate, k: nat, g: Goal)
    requires WellFormed(start) && SafeAlong(model, start, log, g) && d == Exec(start, log)
    requires Calm(model, d, job.plan.target) && FitsView(job, ViewOf(d)) && |job.plan.sources| <= g.widest
    requires k <= |MergeTrace(job, f)|
    ensures SafeAlong(model, start, log + MergeTrace(job, f)[..k], g)
  {
    SafeAtEveryCut(model, start, log, g, |log|);
    assert log[..|log|] == log;
    CalmIsQuiet(model, d, job.plan.target);
    MergeIsSafe(model, d, job, f, g);
    SafeAlongCut(model, d, MergeTrace(job, f), g, k);
    SafeAlongConcat(model, start, log, MergeTrace(job, f)[..k], g);
  }

  /** What an attempt leaves, from the catalogue it leaves. */
  lemma WentLeaves(start: Disk, a: Snapshot, b: Snapshot, job: Job, f: Fate, luck: Luck)
    requires WellFormed(start) && a.disk == Exec(start, a.log) && b.disk == Exec(start, b.log)
    requires b.log == a.log + StepsOf(job, f, luck)
    requires FitsView(job, ViewOf(a.disk)) && NoRecord(ViewOf(a.disk)) && job.plan.target == a.highest + 1
    requires Ascending(a.catalogue) && |a.catalogue| > 0 && (forall v :: v in a.catalogue <==> v in Tables(ViewOf(a.disk)))
    requires (forall v :: v in a.catalogue ==> v <= a.highest) && (forall v :: v in a.dirty ==> v in a.catalogue)
    requires ToldOrNot(a, b, job, f, luck)
    ensures TablesOfCatalogue(ViewOf(b.disk), b.catalogue) == ServedAfter(TablesOfCatalogue(ViewOf(a.disk), a.catalogue), job, Tells(job, f, luck))
    ensures Ascending(b.catalogue) && |b.catalogue| > 0
    ensures forall v :: v in b.catalogue ==> v <= b.highest && v in Tables(ViewOf(b.disk))
    ensures forall v :: v in b.dirty ==> v in b.catalogue
    ensures Over(EndOf(job, f, luck)) ==> NoRecord(ViewOf(b.disk))
    ensures NoRecord(ViewOf(b.disk)) ==> forall v :: v in b.catalogue <==> v in Tables(ViewOf(b.disk))
  {
    StillKept(a.catalogue, b.catalogue, a.highest, b.highest, a.dirty, b.dirty, job, Tells(job, f, luck));
    ExecConcat(start, a.log, StepsOf(job, f, luck));
    ExecSees(a.disk, StepsOf(job, f, luck));
    WentServes(ViewOf(a.disk), ViewOf(b.disk), a.catalogue, b.catalogue, job, f, luck);
  }

  /** And name by name, when it ran to its end. */
  lemma WentTidies(start: Disk, a: Snapshot, b: Snapshot, job: Job, f: Fate, luck: Luck, outcome: Outcome)
    requires WellFormed(start) && a.disk == Exec(start, a.log) && b.disk == Exec(start, b.log)
    requires Went(a, b, job, f, luck, outcome) && NoRecord(ViewOf(a.disk))
    ensures luck.escapes.None? ==> Tidying.Leavings(ViewOf(a.disk), ViewOf(b.disk), job, f)
  {
    ExecConcat(start, a.log, MergeTrace(job, f));
    ExecSees(a.disk, MergeTrace(job, f));
    Tidying.MergeLeaves(ViewOf(a.disk), job, f);
  }

  lemma WentServes(view: View, after: View, before: seq<nat>, catalogue: seq<nat>, job: Job, f: Fate, luck: Luck)
    requires FitsView(job, view) && NoRecord(view) && after == ViewExec(view, StepsOf(job, f, luck))
    requires (forall v :: v in before <==> v in Tables(view)) && job.plan.target !in before
    requires if Tells(job, f, luck) then Supersedes(catalogue, before, job.plan.sources, job.plan.target) else catalogue == before
    ensures forall v :: v in catalogue ==> v in Tables(after)
    ensures TablesOfCatalogue(after, catalogue) == ServedAfter(TablesOfCatalogue(view, before), job, Tells(job, f, luck))
    ensures Over(EndOf(job, f, luck)) ==> NoRecord(after)
    ensures NoRecord(after) ==> forall v :: v in catalogue <==> v in Tables(after)
  {
    var now := ServedAfter(Tables(view), job, Tells(job, f, luck));
    WentShows(view, job, f, luck);
    TablesOf(view);
    ServedAre(view, before, Tables(view));
    CatalogueIsNow(view, before, catalogue, job, Tells(job, f, luck));
    ServedAre(after, catalogue, now);
  }

  lemma WentShows(view: View, job: Job, f: Fate, luck: Luck)
    requires FitsView(job, view) && NoRecord(view)
    ensures var after, now := ViewExec(view, StepsOf(job, f, luck)), ServedAfter(Tables(view), job, Tells(job, f, luck));
            && (forall v :: v in now ==> ShowsAs(after, v, now[v]))
            && (NoRecord(after) ==> Tables(after) == now)
            && (Over(EndOf(job, f, luck)) ==> NoRecord(after))
  {
    if luck.escapes.Some? {
      CutShows(view, job, f, StepsDone(job, f, luck.escapes.value), Tells(job, f, luck));
    } else {
      var k := |MergeTrace(job, f)|;
      assert MergeTrace(job, f)[..k] == MergeTrace(job, f);
      if Catalogued(f) { ConfirmedTrace(job, f); }
      CutShows(view, job, f, k, Tells(job, f, luck));
      MergeEffects(view, job, f);
    }
  }

  lemma CutShows(view: View, job: Job, f: Fate, k: nat, told: bool)
    requires FitsView(job, view) && NoRecord(view) && if told then Told(job, f, k) else Untold(job, f, k)
    ensures var after, now := CutView(view, job, f, k), ServedAfter(Tables(view), job, told);
            (forall v :: v in now ==> ShowsAs(after, v, now[v])) && (NoRecord(after) ==> Tables(after) == now)
  {
    if told {
      ToldShows(view, job, f, k);
      if NoRecord(CutView(view, job, f, k)) { ToldTables(view, job, f, k); }
    } else {
      UntoldShows(view, job, f, k);
    }
  }

  lemma CatalogueIsNow(view: View, before: seq<nat>, catalogue: seq<nat>, job: Job, told: bool)
    requires FitsView(job, view) && (forall v :: v in before <==> v in Tables(view)) && job.plan.target !in before
    requires if told then Supersedes(catalogue, before, job.plan.sources, job.plan.target) else catalogue == before
    ensures forall v :: v in catalogue <==> v in ServedAfter(Tables(view), job, told)
  {
  }

  lemma ServedAre(after: View, catalogue: seq<nat>, now: map<nat, Table>)
    requires (forall v :: v in catalogue <==> v in now) && forall v :: v in now ==> ShowsAs(after, v, now[v])
    ensures TablesOfCatalogue(after, catalogue) == now && forall v :: v in catalogue ==> v in Tables(after)
  {
    TablesOf(after);
    forall v | v in now ensures v in Tables(after) && Tables(after)[v] == now[v] {
      assert ShowsAs(after, v, now[v]);
    }
  }

  lemma MovedMeans(tables: seq<Table>, limit: nat, luck: Luck, sources: seq<nat>, r: Result<Table>)
    requires Answers(tables, limit, luck.throwsAt.None?, Opens(sources, luck.unreadable), r)
    ensures ErrorMeans(if r.Ok? then Merged else Refused(r.error), luck, tables, limit)
    ensures r.Ok? ==> Joined(tables, limit)
  {
    SharedKeysAreFewer(tables);
  }

  lemma JobFits(job: Job, view: View)
    requires Ascending(job.plan.sources) && |job.plan.sources| > 0 && job.plan.id != 0
    requires forall s :: s in job.plan.sources ==> s < job.plan.target && s in Tables(view)
    requires job.merged == MergedOf(Tables(view), job.plan.sources) && Data(job.plan.target) !in view
    ensures FitsView(job, view)
  {
  }

  lemma BuiltOutcome(job: Job, f: Fate, outcome: Outcome, luck: Luck, tables: seq<Table>, limit: nat)
    requires outcome == OutcomeOf(job, f) && f == luck.fate.(build := f.build)
    requires ErrorMeans(if f.build == Built then Merged else Refused(f.build.why), luck, tables, limit)
    ensures ErrorMeans(outcome, luck, tables, limit)
  {
  }

  lemma OutcomeMeans(job: Job, f: Fate, outcome: Outcome, luck: Luck, tables: seq<Table>, limit: nat)
    requires outcome == EndOf(job, f, luck) && f == luck.fate.(build := f.build)
    requires ErrorMeans(if f.build == Built then Merged else Refused(f.build.why), luck, tables, limit)
    ensures ErrorMeans(outcome, luck, tables, limit)
  {
    if luck.escapes.None? { BuiltOutcome(job, f, outcome, luck, tables, limit); }
  }

  lemma EndsTold(job: Job, f: Fate, luck: Luck)
    ensures EndOf(job, f, luck).Merged? ==> Tells(job, f, luck)
    ensures EndOf(job, f, luck).Refused? ==> !Tells(job, f, luck)
  {
    CataloguedOutcome(job, f);
  }

  /** However an attempt goes, it carries crash safety on. */
  lemma GuardOn(model: CrashModel, start: Disk, log: seq<Instr>, d: Disk, job: Job, f: Fate, luck: Luck, g: Goal)
    requires WellFormed(start) && SafeAlong(model, start, log, g) && d == Exec(start, log)
    requires Calm(model, d, job.plan.target) && FitsView(job, ViewOf(d)) && |job.plan.sources| <= g.widest
    requires model == InOrder || f.finalBarrier
    ensures SafeAlong(model, start, log + StepsOf(job, f, luck), g)
    ensures Over(EndOf(job, f, luck)) ==>
              Calm(model, Exec(start, log + StepsOf(job, f, luck)),
                   if Tells(job, f, luck) then job.plan.target + 1 else job.plan.target)
  {
    if luck.escapes.Some? {
      GuardAlongCut(model, start, log, d, job, f, StepsDone(job, f, luck.escapes.value), g);
    } else {
      GuardAlong(model, start, log, d, job, f, g);
      EndsTold(job, f, luck);
    }
  }

  lemma SameTrace(a: Job, b: Job, f: Fate)
    requires a.plan == b.plan && (f.build == Built ==> a.merged == b.merged)
    ensures MergeTrace(a, f) == MergeTrace(b, f) && OutcomeOf(a, f) == OutcomeOf(b, f)
  {
  }

  /** The books of the catalogue stay in order. */
  lemma StillKept(before: seq<nat>, catalogue: seq<nat>, was: nat, highest: nat, owed: set<nat>, dirty: set<nat>, job: Job, told: bool)
    requires Ascending(before) && |before| > 0 && (forall v :: v in before ==> v <= was) && owed <= (set v | v in before)
    requires job.plan.target == was + 1
    requires if told
             then Supersedes(catalogue, before, job.plan.sources, job.plan.target) && highest == job.plan.target && Discharged(dirty, owed, job.plan.sources)
             else catalogue == before && highest >= was && dirty == owed
    ensures Ascending(catalogue) && |catalogue| > 0
    ensures forall v :: v in catalogue ==> v <= highest
    ensures forall v :: v in dirty ==> v in catalogue
  {
    if told { assert job.plan.target in catalogue; }
  }
}
