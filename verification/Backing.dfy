/**
  What a merge or a recovery cut anywhere leaves of a directory, told without the disk below it:
  for a process that dies while the machine does not.
*/
module Backing {
  import opened Basics
  import opened Disk
  import opened Recovery
  import opened CrashSafety
  import opened Merge
  import opened MergeEffect
  import opened Settling

  /** Any directory is what some disk shows, with everything on it durable. */
  lemma {:induction false} Backed(view: View) returns (d: Disk)
    ensures WellFormed(d) && d.pending == [] && ViewOf(d) == view
    ensures forall i :: 0 <= i < |d.inodes| ==> d.inodes[i].synced
    decreases |view|
  {
    if view == map[] {
      d := Disk([], map[], []);
    } else {
      var n :| n in view;
      var rest := Backed(view - {n});
      d := Disk(rest.inodes + [Inode(view[n], true)], rest.durable[n := |rest.inodes|], []);
      assert Visible(rest) == rest.durable && Visible(d) == d.durable;
      forall x ensures x in ViewOf(d) <==> x in view {
        assert x in ViewOf(rest) <==> x in view && x != n;
      }
      forall x | x in view ensures ViewOf(d)[x] == view[x] {
        if x != n { assert ViewOf(rest)[x] == view[x]; }
      }
    }
  }

  lemma BackedIsSafe(d: Disk, m: Table, widest: nat)
    requires WellFormed(d) && d.pending == [] && forall i :: 0 <= i < |d.inodes| ==> d.inodes[i].synced
    requires Represents(ViewOf(d), m) && NoWiderThan(ViewOf(d), widest)
    ensures Safe(InOrder, d, Goal(m, widest))
  {
    forall dir | Possible(InOrder, d, dir) ensures Sound(d.inodes, dir, Goal(m, widest)) {
      assert dir == d.durable == Visible(d);
    }
  }

  lemma QuietWhenNoRecord(d: Disk, t: nat)
    requires WellFormed(d) && NoRecord(ViewOf(d)) && Data(t) !in ViewOf(d)
    ensures Quiet(InOrder, d, t)
  {
    VisibleInRange(d);
    forall dir | Live(InOrder, d, dir) ensures NothingInFlight(dir, t) {
      forall u ensures Record(u) !in dir { assert Record(u) !in ViewOf(d); }
      assert Data(t) !in ViewOf(d);
    }
  }

  lemma SafeIsRepresented(d: Disk, g: Goal)
    requires Safe(InOrder, d, g)
    ensures Represents(ViewOf(d), g.entries)
  {
    VisibleIsPossible(InOrder, d.durable, d.pending);
    assert Sound(d.inodes, Visible(d), g);
  }

  /** A merge stopped after any number of steps, whatever failed in it, leaves a directory that holds
      exactly the same entries. */
  lemma MergePrefixRepresents(view: View, job: Job, f: Fate, k: nat, m: Table)
    requires Represents(view, m) && NoRecord(view) && FitsView(job, view)
    requires k <= |MergeTrace(job, f)|
    ensures Represents(ViewExec(view, MergeTrace(job, f)[..k]), m)
  {
    var d := Backed(view);
    var g := Goal(m, |job.plan.sources|);
    BackedIsSafe(d, m, |job.plan.sources|);
    QuietWhenNoRecord(d, job.plan.target);
    MergeIsSafe(InOrder, d, job, f, g);
    SafeAtEveryCut(InOrder, d, MergeTrace(job, f), g, k);
    SafeIsRepresented(Exec(d, MergeTrace(job, f)[..k]), g);
    ExecSees(d, MergeTrace(job, f)[..k]);
  }

  /** So does a recovery. */
  lemma RecoveryPrefixRepresents(view: View, k: nat, m: Table)
    requires Represents(view, m) && RecoveryTrace(view).Some? && k <= |RecoveryTrace(view).value|
    ensures Represents(ViewExec(view, RecoveryTrace(view).value[..k]), m)
  {
    RecoverySettles(view);
    EffectAtEveryCut(view, RecoveryTrace(view).value, k);
  }
}
