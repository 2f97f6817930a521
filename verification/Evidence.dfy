/**
  What recovery asks of a directory before it removes anything, and what it leaves, told of every directory
  whatever is in it: only names and contents are spoken of.
*/
module Evidence {
  import opened Basics
  import opened Disk
  import opened Recovery
  import opened CrashSafety
  import opened Merge
  import opened Settling

  /** A record that spells one merge into `t`: one to sixty-four other versions in ascending order, and an identifier. */
  ghost predicate Legible(content: Content, t: nat) {
    && content.Sidecar? && content.plan.target == t && content.plan.id != 0
    && 1 <= |content.plan.sources| <= 64
    && (forall i, j :: 0 <= i < j < |content.plan.sources| ==> content.plan.sources[i] < content.plan.sources[j])
    && (forall i :: 0 <= i < |content.plan.sources| ==> content.plan.sources[i] != t)
  }

  /** The file at the target's name, if there is one, was written by the merge of the record. */
  ghost predicate WrittenByIt(view: View, t: nat) {
    Record(t) in view && Data(t) in view ==>
      view[Data(t)].Rows? && view[Record(t)].Sidecar? && view[Data(t)].marker == Some(view[Record(t)].plan.id)
  }

  ghost predicate OneAtMost(view: View) {
    forall t: nat, u: nat :: Record(t) in view && Record(u) in view ==> t == u
  }

  /** One record at most, and that one legible and about the file at its target's name. */
  ghost predicate Evident(view: View) {
    OneAtMost(view) && forall t: nat :: Record(t) in view ==> Legible(view[Record(t)], t) && WrittenByIt(view, t)
  }

  /** The version is a source of a merge whose target has its canonical name. */
  ghost predicate Replaces(view: View, t: nat, s: nat) {
    Record(t) in view && Data(t) in view && view[Record(t)].Sidecar? && s in view[Record(t)].plan.sources
  }

  ghost predicate Replaceable(view: View, s: nat) {
    exists t :: Replaces(view, t, s)
  }

  lemma OnlyOne(view: View, t: nat)
    requires OneAtMost(view) && Record(t) in view
    ensures Listed(Records(view)) == [t]
  {
    assert t in Records(view);
    assert forall u :: u in Records(view) ==> Record(u) in view;
    assert Records(view) == {t};
    assert Listed(Records(view))[0] in Records(view);
  }

  lemma Several(view: View)
    requires !OneAtMost(view)
    ensures |Listed(Records(view))| > 1
  {
    var t: nat, u: nat :| Record(t) in view && Record(u) in view && t != u;
    assert t in Records(view) && u in Records(view);
    var listed := Listed(Records(view));
    assert t in listed && u in listed;
  }

  lemma NoRecords(view: View)
    requires forall t: nat :: Record(t) !in view
    ensures Listed(Records(view)) == []
  {
    assert Records(view) == {};
  }

  lemma LegibleIsReadable(content: Content, t: nat)
    ensures Legible(content, t) <==> Readable(content, t)
  {
    if content.Sidecar? {
      assert t in content.plan.sources <==> exists i :: 0 <= i < |content.plan.sources| && content.plan.sources[i] == t;
    }
  }

  /** Recovery runs on exactly the directories whose record, if any, is the only one, can be read and is about the file
      at its target's name. Every other directory it refuses. */
  lemma RunsOnEvidence(view: View)
    ensures RecoveryTrace(view).Some? <==> Evident(view)
  {
    if !OneAtMost(view) {
      Several(view);
    } else if t: nat :| Record(t) in view {
      OnlyOne(view, t);
      LegibleIsReadable(view[Record(t)], t);
      assert forall u: nat :: Record(u) in view ==> u == t;
    } else {
      NoRecords(view);
    }
  }

  lemma CloseSees(view: View, t: nat)
    ensures ViewExec(view, [Barrier, Unlink(Record(t)), Unlink(Building(t)), Barrier]) == view - {Record(t), Building(t)}
  {
    var two := [Unlink(Building(t)), Barrier];
    var three := [Unlink(Record(t)), Unlink(Building(t)), Barrier];
    ViewExecCons(view, Barrier, three);
    assert [Barrier] + three == [Barrier, Unlink(Record(t)), Unlink(Building(t)), Barrier];
    ViewExecCons(view, Unlink(Record(t)), two);
    assert [Unlink(Record(t))] + two == three;
    ViewExecCons(view - {Record(t)}, Unlink(Building(t)), [Barrier]);
    assert [Unlink(Building(t))] + [Barrier] == two;
    ViewExecCons(view - {Record(t)} - {Building(t)}, Barrier, []);
    assert [Barrier] + [] == [Barrier];
    assert view - {Record(t)} - {Building(t)} == view - {Record(t), Building(t)};
  }

  /** What the record's part of recovery leaves. */
  ghost predicate Keeps(view: View, after: View) {
    && (forall v: nat :: Data(v) in after <==> Data(v) in view && !Replaceable(view, v))
    && (forall t: nat :: Record(t) !in after)
    && (forall n :: n in after ==> n in view && after[n] == view[n])
  }

  lemma SettlingKeeps(view: View)
    requires RecoveryTrace(view).Some?
    ensures Keeps(view, ViewExec(view, SettleRecord(view).value))
  {
    RunsOnEvidence(view);
    if t: nat :| Record(t) in view {
      OnlyOne(view, t);
      SettledOne(view, t);
    } else {
      NoRecords(view);
      assert ViewExec(view, []) == view;
    }
  }

  lemma SettledOne(view: View, t: nat)
    requires Evident(view) && Record(t) in view && SettleRecord(view).Some? && Listed(Records(view)) == [t]
    ensures Keeps(view, ViewExec(view, SettleRecord(view).value))
  {
    var plan := view[Record(t)].plan;
    assert Legible(view[Record(t)], t);
    assert forall u: nat :: Record(u) in view ==> u == t;
    assert forall s :: Replaceable(view, s) <==> Replaces(view, t, s);
    if Data(t) in view {
      RetireSees(view, plan.sources, {});
      ViewExecConcat(view, Retire(plan.sources, {}), [Barrier, Unlink(Record(t)), Unlink(Building(t)), Barrier]);
      CloseSees(ViewExec(view, Retire(plan.sources, {})), t);
    } else {
      AbandonSees(view, t);
    }
  }

  /** The canonical files, as they were, but for the sources of a merge whose target is published, and no other name. */
  ghost predicate Leaves(view: View, after: View) {
    && (forall v: nat :: Data(v) in after <==> Data(v) in view && !Replaceable(view, v))
    && (forall n :: n in after ==> n.Data? && n in view && after[n] == view[n])
  }

  /** What recovery leaves of any directory it does not refuse. */
  lemma RecoveryLeaves(view: View)
    requires RecoveryTrace(view).Some?
    ensures Leaves(view, ViewExec(view, RecoveryTrace(view).value))
  {
    var settle := SettleRecord(view).value;
    SettlingKeeps(view);
    var settled := ViewExec(view, settle);
    ViewExecConcat(view, settle, Removals(Strays(settled)));
    RemovalsSee(settled, Strays(settled));
    StraysAreMeaningless(settled);
  }

  lemma {:induction false} RetireNames(sources: seq<nat>)
    ensures forall s :: Unlink(Data(s)) in Retire(sources, {}) <==> s in sources
    ensures forall i :: i in Retire(sources, {}) ==> i.Unlink? && i.name.Data?
  {
    if sources != [] { RetireNames(sources[1..]); }
  }

  /** The record's part of recovery, with the record there. */
  lemma SettlingUnlinks(view: View, t: nat, v: nat)
    requires Evident(view) && Record(t) in view && SettleRecord(view).Some? && Listed(Records(view)) == [t]
    ensures Unlink(Record(v)) in SettleRecord(view).value <==> v == t
    ensures Unlink(Data(v)) in SettleRecord(view).value <==> Replaces(view, t, v)
  {
    var plan := view[Record(t)].plan;
    assert Legible(view[Record(t)], t);
    if Data(t) in view {
      var retire, close := Retire(plan.sources, {}), [Barrier, Unlink(Record(t)), Unlink(Building(t)), Barrier];
      RetireNames(plan.sources);
      assert SettleRecord(view).value == retire + close;
      assert Unlink(Record(v)) in close <==> v == t;
    } else {
      var trace := [Unlink(Building(t)), Unlink(Record(t)), Barrier];
      assert SettleRecord(view).value == trace;
      assert trace[1] == Unlink(Record(t));
    }
  }

  lemma SweepUnlinks(view: View, v: nat)
    ensures Unlink(Record(v)) !in Removals(Strays(view)) && Unlink(Data(v)) !in Removals(Strays(view))
  {
    StraysAreMeaningless(view);
    forall k | 0 <= k < |Strays(view)| ensures Removals(Strays(view))[k] == Unlink(Strays(view)[k]) && Meaningless(Strays(view)[k]) {
      assert Strays(view)[k] in Strays(view);
    }
  }

  /** What recovery unlinks of any directory it does not refuse: the record that is there, which is legible and whose
      target is absent or bears its identifier, and the sources of a published target. Nothing else of either kind. */
  lemma UnlinksOnEvidence(view: View, v: nat)
    requires RecoveryTrace(view).Some?
    ensures Unlink(Record(v)) in RecoveryTrace(view).value <==> Record(v) in view
    ensures Unlink(Record(v)) in RecoveryTrace(view).value ==> Legible(view[Record(v)], v) && WrittenByIt(view, v)
    ensures Unlink(Data(v)) in RecoveryTrace(view).value <==> Replaceable(view, v)
  {
    RunsOnEvidence(view);
    SweepUnlinks(ViewExec(view, SettleRecord(view).value), v);
    if t: nat :| Record(t) in view {
      OnlyOne(view, t);
      SettlingUnlinks(view, t, v);
      assert Replaceable(view, v) <==> Replaces(view, t, v);
    } else {
      NoRecords(view);
    }
  }
}
