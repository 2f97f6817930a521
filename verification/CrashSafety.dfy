/**
  When a directory is safe to lose power in: every directory a power cut may leave
  represents the same entries, and every file that carries them was synced.
*/
module CrashSafety {
  import opened Basics
  import opened Disk
  import opened Recovery

  /** Every file whose name carries meaning has its contents on stable storage. */
  predicate Pinned(inodes: seq<Inode>, dir: Dir)
    requires InRange(inodes, dir)
  {
    forall n :: n in dir && (n.Data? || n.Record?) ==> inodes[dir[n]].synced
  }

  /** What must survive: the entries, and that no record names more sources than `widest`. */
  datatype Goal = Goal(entries: Table, widest: nat)

  ghost predicate NoWiderThan(view: View, widest: nat) {
    forall t :: Record(t) in view && view[Record(t)].Sidecar? ==> |view[Record(t)].plan.sources| <= widest
  }

  ghost predicate Sound(inodes: seq<Inode>, dir: Dir, g: Goal) {
    && InRange(inodes, dir) && Pinned(inodes, dir)
    && Represents(ViewIn(inodes, dir), g.entries) && NoWiderThan(ViewIn(inodes, dir), g.widest)
  }

  /** Whatever the power cut keeps, the entries are exactly `m`. */
  ghost predicate Safe(model: CrashModel, d: Disk, g: Goal) {
    && WellFormed(d)
    && forall dir :: Possible(model, d, dir) ==> Sound(d.inodes, dir, g)
  }

  /** Safe now and after every instruction of the trace. */
  ghost predicate SafeAlong(model: CrashModel, d: Disk, trace: seq<Instr>, g: Goal)
    decreases |trace|
  {
    && Safe(model, d, g)
    && (trace != [] ==> SafeAlong(model, Step(d, trace[0]), trace[1..], g))
  }

  lemma SafeAlongCons(model: CrashModel, d: Disk, i: Instr, rest: seq<Instr>, g: Goal)
    requires Safe(model, d, g)
    requires SafeAlong(model, Step(d, i), rest, g)
    ensures SafeAlong(model, d, [i] + rest, g)
  {
    assert ([i] + rest)[1..] == rest;
  }

  /** A trace cut after `k` instructions, by whatever stopped it. */
  lemma {:induction false} SafeAtEveryCut(model: CrashModel, d: Disk, trace: seq<Instr>, g: Goal, k: nat)
    requires SafeAlong(model, d, trace, g) && k <= |trace|
    ensures Safe(model, Exec(d, trace[..k]), g)
    decreases |trace|
  {
    if k != 0 {
      assert trace[..k][0] == trace[0] && trace[..k][1..] == trace[1..][..k - 1];
      StepSees(d, trace[0]);
      SafeAtEveryCut(model, Step(d, trace[0]), trace[1..], g, k - 1);
    }
  }

  /** Files never lose contents or durability while the process runs. */
  predicate Grows(before: seq<Inode>, after: seq<Inode>) {
    && |before| <= |after|
    && forall i :: 0 <= i < |before| ==>
         after[i].content == before[i].content && (before[i].synced ==> after[i].synced)
  }

  lemma SoundGrows(before: seq<Inode>, after: seq<Inode>, dir: Dir, g: Goal)
    requires Sound(before, dir, g) && Grows(before, after)
    ensures Sound(after, dir, g)
  {
    assert ViewIn(after, dir) == ViewIn(before, dir);
  }

  /** Two directories that agree on every name that carries meaning. */
  ghost predicate SameNames(a: Dir, b: Dir) {
    forall n: Name :: n.Data? || n.Record? ==> (n in a <==> n in b) && (n in a ==> a[n] == b[n])
  }

  lemma SoundSameNames(inodes: seq<Inode>, a: Dir, b: Dir, g: Goal)
    requires Sound(inodes, a, g) && SameNames(a, b) && InRange(inodes, b)
    ensures Sound(inodes, b, g)
  {
    SameMeaningSameEffect(ViewIn(inodes, a), ViewIn(inodes, b));
  }

  predicate Meaningless(n: Name) { n.Building? || n.RecordTmp? }

  /** Every survivor a change may still land on means what one before meant. */
  ghost predicate LiveAsBefore(model: CrashModel, before: Disk, after: Disk) {
    forall dir :: Live(model, after, dir) ==> exists prev :: Live(model, before, prev) && SameNames(prev, dir)
  }

  /** A pending change keeps safety when every live survivor keeps its meaning under it. */
  lemma SafePend(model: CrashModel, d: Disk, op: Op, g: Goal)
    requires Safe(model, d, g)
    requires op.Drop? || op.ino < |d.inodes|
    requires forall dir :: Live(model, d, dir) ==> Sound(d.inodes, ApplyOp(dir, op), g)
    ensures Safe(model, Pend(d, op), g)
  {
    forall dir | Possible(model, Pend(d, op), dir) ensures Sound(d.inodes, dir, g) {
      var prev := PossibleAfter(model, d, op, dir);
    }
  }

  lemma LivePend(model: CrashModel, d: Disk, op: Op)
    requires forall dir :: Live(model, d, dir) ==> SameNames(dir, ApplyOp(dir, op))
    ensures LiveAsBefore(model, d, Pend(d, op))
  {
    forall dir | Live(model, Pend(d, op), dir)
      ensures exists prev :: Live(model, d, prev) && SameNames(prev, dir)
    {
      var prev := LiveAfter(model, d, op, dir);
      assert Live(model, d, prev) && SameNames(prev, dir);
    }
  }

  lemma SafeGrows(model: CrashModel, d: Disk, inodes: seq<Inode>, g: Goal)
    requires Safe(model, d, g) && Grows(d.inodes, inodes)
    ensures Safe(model, d.(inodes := inodes), g)
    ensures LiveAsBefore(model, d, d.(inodes := inodes))
  {
    var after := d.(inodes := inodes);
    forall dir | Possible(model, after, dir) ensures Sound(inodes, dir, g) {
      assert Possible(model, d, dir);
      SoundGrows(d.inodes, inodes, dir, g);
    }
    forall dir | Live(model, after, dir)
      ensures exists prev :: Live(model, d, prev) && SameNames(prev, dir)
    {
      assert Live(model, d, dir) && SameNames(dir, dir);
    }
  }

  lemma LiveAsBeforeTrans(model: CrashModel, a: Disk, b: Disk, c: Disk)
    requires LiveAsBefore(model, a, b) && LiveAsBefore(model, b, c)
    ensures LiveAsBefore(model, a, c)
  {
    forall dir | Live(model, c, dir)
      ensures exists prev :: Live(model, a, prev) && SameNames(prev, dir)
    {
      var mid :| Live(model, b, mid) && SameNames(mid, dir);
      var prev :| Live(model, a, prev) && SameNames(prev, mid);
      assert Live(model, a, prev) && SameNames(prev, dir);
    }
  }

  /** Instructions on names that carry no meaning. */
  predicate Harmless(i: Instr) {
    || i.Fsync?
    || (i.Create? && Meaningless(i.name))
    || (i.Unlink? && Meaningless(i.name))
  }

  lemma HarmlessStep(model: CrashModel, d: Disk, i: Instr, g: Goal)
    requires Safe(model, d, g) && Harmless(i)
    ensures Safe(model, Step(d, i), g)
    ensures LiveAsBefore(model, d, Step(d, i))
    ensures Grows(d.inodes, Step(d, i).inodes)
    ensures SameNames(Visible(d), Visible(Step(d, i)))
  {
    VisibleInRange(d);
    match i
    case Fsync(name) =>
      SafeGrows(model, d, Step(d, i).inodes, g);
    case Create(name, content) =>
      var grown := d.(inodes := d.inodes + [Inode(content, false)]);
      SafeGrows(model, d, grown.inodes, g);
      HarmlessPend(model, grown, Put(name, |d.inodes|), g);
      LiveAsBeforeTrans(model, d, grown, Step(d, i));
    case Unlink(name) =>
      if name in Visible(d) { HarmlessPend(model, d, Drop(name), g); } else { SafeGrows(model, d, d.inodes, g); }
  }

  lemma VisibleInRange(d: Disk)
    requires WellFormed(d)
    ensures InRange(d.inodes, Visible(d))
  {
    VisibleIsPossible(InOrder, d.durable, d.pending);
    PossibleInRange(InOrder, d.inodes, d.durable, d.pending, Visible(d));
  }

  lemma HarmlessPend(model: CrashModel, d: Disk, op: Op, g: Goal)
    requires Safe(model, d, g)
    requires (op.Drop? || (op.Put? && op.ino < |d.inodes|)) && Meaningless(op.name)
    ensures Safe(model, Pend(d, op), g)
    ensures LiveAsBefore(model, d, Pend(d, op))
    ensures SameNames(Visible(d), Visible(Pend(d, op)))
  {
    forall dir | Live(model, d, dir)
      ensures Sound(d.inodes, ApplyOp(dir, op), g) && SameNames(dir, ApplyOp(dir, op))
    {
      LiveIsPossible(model, d, dir);
      ApplyOpSees(d.inodes, dir, op);
      SoundSameNames(d.inodes, dir, ApplyOp(dir, op), g);
    }
    SafePend(model, d, op, g);
    LivePend(model, d, op);
    VisibleAfter(d, op);
  }

  /** A barrier makes what is visible the only survivor. */
  lemma BarrierStep(model: CrashModel, d: Disk, g: Goal)
    requires Safe(model, d, g)
    ensures Safe(model, Step(d, Barrier), g)
    ensures Visible(Step(d, Barrier)) == Visible(d)
    ensures forall dir :: Live(model, Step(d, Barrier), dir) ==> dir == Visible(d)
    ensures Step(d, Barrier).inodes == d.inodes
  {
    VisibleIsPossible(model, d.durable, d.pending);
    StepSees(d, Barrier);
  }
}
