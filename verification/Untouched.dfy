/**
  Which names a merge leaves alone.
*/
module Untouched {
  import opened Basics
  import opened Disk
  import opened Recovery
  import opened CrashSafety
  import opened Merge
  import opened MergeEffect
  import opened Limits
  import opened Chain

  predicate LeavesAlone(i: Instr, n: Name) { i.Barrier? || Avoids(i, n) }

  lemma {:induction false} RetireLeavesAlone(sources: seq<nat>, stuck: set<nat>, v: nat)
    requires v !in sources
    ensures forall i :: 0 <= i < |Retire(sources, stuck)| ==> LeavesAlone(Retire(sources, stuck)[i], Data(v))
  {
    if sources != [] {
      assert sources[0] in sources && forall s :: s in sources[1..] ==> s in sources;
      RetireLeavesAlone(sources[1..], stuck, v);
    }
  }

  predicate AllLeaveAlone(trace: seq<Instr>, n: Name) {
    forall i :: 0 <= i < |trace| ==> LeavesAlone(trace[i], n)
  }

  lemma LeavesAloneBoth(a: seq<Instr>, b: seq<Instr>, n: Name)
    requires AllLeaveAlone(a, n) && AllLeaveAlone(b, n)
    ensures AllLeaveAlone(a + b, n)
  {
  }

  lemma EndLeavesAlone(job: Job, f: Fate, v: nat)
    requires v !in job.plan.sources
    ensures AllLeaveAlone(RetireSources(job, f), Data(v))
  {
    RetireLeavesAlone(job.plan.sources, f.stuck, v);
    assert AllLeaveAlone(RemoveRecord(job, f), Data(v));
    assert AllLeaveAlone(ConfirmRetired(job, f), Data(v));
  }

  lemma ClearLeavesAlone(job: Job, f: Fate, v: nat)
    requires v !in job.plan.sources
    ensures AllLeaveAlone(ClearStray(job, f), Data(v))
  {
    EndLeavesAlone(job, f, v);
    assert AllLeaveAlone(ConfirmTarget(job, f), Data(v));
  }

  lemma WithdrawLeavesAlone(job: Job, f: Fate, v: nat)
    ensures AllLeaveAlone(Withdraw(job, f), Data(v))
  {
  }

  lemma ConfirmLeavesAlone(job: Job, f: Fate, v: nat)
    requires v !in job.plan.sources && v != job.plan.target
    ensures AllLeaveAlone(ConfirmRecord(job, f), Data(v))
  {
    ClearLeavesAlone(job, f, v);
    WithdrawLeavesAlone(job, f, v);
    assert AllLeaveAlone(Publish(job, f), Data(v));
  }

  lemma HarmlessLeavesAlone(trace: seq<Instr>, v: nat)
    requires forall i :: 0 <= i < |trace| ==> Harmless(trace[i])
    ensures AllLeaveAlone(trace, Data(v))
  {
  }

  lemma NamingLeavesAlone(job: Job, v: nat)
    ensures AllLeaveAlone(NamingTrace(job), Data(v))
  {
  }

  lemma UnretiredLeavesAlone(job: Job, f: Fate, v: nat)
    requires v != job.plan.target && NamesRecord(f) && !Catalogued(f)
    ensures AllLeaveAlone(ConfirmRecord(job, f), Data(v))
  {
    WithdrawLeavesAlone(job, f, v);
    if f.recordBarrier && f.published {
      assert ConfirmTarget(job, f) == [] || ConfirmTarget(job, f) == [Barrier] + [];
      assert AllLeaveAlone(ConfirmTarget(job, f), Data(v));
      assert AllLeaveAlone(ClearStray(job, f), Data(v));
    }
  }

  /** A merge that never got to its sources. */
  lemma UncataloguedLeavesAlone(job: Job, f: Fate, v: nat)
    requires v != job.plan.target && !Catalogued(f)
    ensures AllLeaveAlone(MergeTrace(job, f), Data(v))
  {
    if !NamesRecord(f) {
      UnnamedIsHarmless(job, f);
      HarmlessLeavesAlone(MergeTrace(job, f), v);
    } else {
      TraceOfNaming(job, f);
      NamingLeavesAlone(job, v);
      UnretiredLeavesAlone(job, f, v);
      LeavesAloneBoth(NamingTrace(job), ConfirmRecord(job, f), Data(v));
    }
  }

  /** A merge touches no canonical name but that of its target, and those of its sources once they are out of the
      catalogue. */
  lemma MergeLeavesAlone(job: Job, f: Fate, v: nat)
    requires v != job.plan.target && (Catalogued(f) ==> v !in job.plan.sources)
    ensures AllLeaveAlone(MergeTrace(job, f), Data(v))
  {
    if Catalogued(f) {
      ConfirmLeavesAlone(job, f, v);
      TraceOfNaming(job, f);
      NamingLeavesAlone(job, v);
      LeavesAloneBoth(NamingTrace(job), ConfirmRecord(job, f), Data(v));
    } else {
      UncataloguedLeavesAlone(job, f, v);
    }
  }
}
