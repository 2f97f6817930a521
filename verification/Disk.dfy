/**
  One size class's corner of the database directory, as a crash sees it.

  A file is an inode; its contents survive a power cut only once `sync_file` has
  returned for it. A name is a directory entry; an entry made, moved or removed
  survives only once a directory barrier has returned after it. Between two barriers
  the changes are pending, and what a power cut keeps of them is the crash model.
*/
module Disk {
  import opened Basics

  /** What a merge intends: the record that names the target and what it supersedes. */
  datatype Plan = Plan(target: nat, id: nat, sources: seq<nat>)

  /** The names of the reserved namespace. Only `Data` is canonical. */
  datatype Name =
    | Data(version: nat)
    | Building(version: nat)
    | Record(version: nat)
    | RecordTmp(version: nat)

  datatype Content =
    | Rows(table: Table, marker: Option<nat>)
    | Sidecar(plan: Plan)
    | Scrap

  type View = map<Name, Content>
  type Dir = map<Name, nat>

  datatype Inode = Inode(content: Content, synced: bool)

  /** A pending change to the directory. `Shift` is a rename: atomic, both halves or neither. */
  datatype Op =
    | Put(name: Name, ino: nat)
    | Drop(name: Name)
    | Shift(from: Name, to: Name, ino: nat)

  datatype Disk = Disk(inodes: seq<Inode>, durable: Dir, pending: seq<Op>)

  function ApplyOp(dir: Dir, op: Op): Dir {
    match op
    case Put(name, ino) => dir[name := ino]
    case Drop(name) => dir - {name}
    case Shift(from, to, ino) => (dir - {from})[to := ino]
  }

  function Apply(dir: Dir, ops: seq<Op>): Dir {
    if ops == [] then dir else ApplyOp(Apply(dir, ops[..|ops| - 1]), ops[|ops| - 1])
  }

  /** What a running process sees. */
  function Visible(d: Disk): Dir { Apply(d.durable, d.pending) }

  predicate InRange(inodes: seq<Inode>, dir: Dir) {
    forall n :: n in dir ==> dir[n] < |inodes|
  }

  predicate WellFormed(d: Disk) {
    && InRange(d.inodes, d.durable)
    && forall i :: 0 <= i < |d.pending| ==> (d.pending[i].Drop? || d.pending[i].ino < |d.inodes|)
  }

  function ViewIn(inodes: seq<Inode>, dir: Dir): View {
    map n | n in dir && dir[n] < |inodes| :: inodes[dir[n]].content
  }

  function ViewOf(d: Disk): View { ViewIn(d.inodes, Visible(d)) }

  // ------------------------------------------------------------------
  // What a power cut can leave
  // ------------------------------------------------------------------

  /** `AnySubset`: any of the pending changes may be lost, independently of the others.
      `InOrder`: a change persists only if every earlier one did. */
  datatype CrashModel = AnySubset | InOrder

  ghost predicate PossibleFrom(model: CrashModel, start: Dir, ops: seq<Op>, dir: Dir) {
    if ops == [] then dir == start
    else
      var before := ops[..|ops| - 1];
      var last := ops[|ops| - 1];
      || PossibleFrom(model, start, before, dir)
      || (match model
          case AnySubset => exists prev :: PossibleFrom(model, start, before, prev) && dir == ApplyOp(prev, last)
          case InOrder => dir == ApplyOp(Apply(start, before), last))
  }

  /** `dir` is a directory a power cut may leave. */
  ghost predicate Possible(model: CrashModel, d: Disk, dir: Dir) {
    PossibleFrom(model, d.durable, d.pending, dir)
  }

  /** The survivors a further pending change can land on top of. */
  ghost predicate Live(model: CrashModel, d: Disk, dir: Dir) {
    match model
    case AnySubset => Possible(model, d, dir)
    case InOrder => dir == Visible(d)
  }

  /** A power cut: some possible directory becomes the only one, files that were synced keep
      their contents, and the others hold anything at all. */
  ghost predicate PowerCut(model: CrashModel, d: Disk, after: Disk) {
    && Possible(model, d, after.durable)
    && after.pending == []
    && |after.inodes| == |d.inodes|
    && forall i :: 0 <= i < |d.inodes| ==>
         after.inodes[i].synced && (d.inodes[i].synced ==> after.inodes[i] == d.inodes[i])
  }

  lemma {:induction false} VisibleIsPossible(model: CrashModel, start: Dir, ops: seq<Op>)
    ensures PossibleFrom(model, start, ops, Apply(start, ops))
  {
    if ops != [] {
      VisibleIsPossible(model, start, ops[..|ops| - 1]);
    }
  }

  /** Order-preserving survivors are among the arbitrary ones. */
  lemma {:induction false} InOrderIsASubset(start: Dir, ops: seq<Op>, dir: Dir)
    requires PossibleFrom(InOrder, start, ops, dir)
    ensures PossibleFrom(AnySubset, start, ops, dir)
  {
    if ops != [] {
      var before := ops[..|ops| - 1];
      if PossibleFrom(InOrder, start, before, dir) {
        InOrderIsASubset(start, before, dir);
      } else {
        VisibleIsPossible(AnySubset, start, before);
      }
    }
  }

  lemma {:induction false} PossibleInRange(model: CrashModel, inodes: seq<Inode>, start: Dir, ops: seq<Op>, dir: Dir)
    requires InRange(inodes, start)
    requires forall i :: 0 <= i < |ops| ==> (ops[i].Drop? || ops[i].ino < |inodes|)
    requires PossibleFrom(model, start, ops, dir)
    ensures InRange(inodes, dir)
  {
    if ops != [] {
      var before := ops[..|ops| - 1];
      if PossibleFrom(model, start, before, dir) {
        PossibleInRange(model, inodes, start, before, dir);
      } else if model == AnySubset {
        var prev :| PossibleFrom(model, start, before, prev) && dir == ApplyOp(prev, ops[|ops| - 1]);
        PossibleInRange(model, inodes, start, before, prev);
      } else {
        VisibleIsPossible(model, start, before);
        PossibleInRange(model, inodes, start, before, Apply(start, before));
      }
    }
  }

  lemma LiveIsPossible(model: CrashModel, d: Disk, dir: Dir)
    requires Live(model, d, dir)
    ensures Possible(model, d, dir)
  {
    VisibleIsPossible(model, d.durable, d.pending);
  }

  lemma VisibleIsLive(model: CrashModel, d: Disk)
    ensures Live(model, d, Visible(d))
  {
    VisibleIsPossible(model, d.durable, d.pending);
  }

  function Pend(d: Disk, op: Op): Disk { d.(pending := d.pending + [op]) }

  /** One more pending change: a survivor has it on top of a live one, or does not have it. */
  lemma PossibleAfter(model: CrashModel, d: Disk, op: Op, dir: Dir) returns (prev: Dir)
    requires Possible(model, Pend(d, op), dir)
    ensures Possible(model, d, dir) || (Live(model, d, prev) && dir == ApplyOp(prev, op))
  {
    prev := Visible(d);
    var ops := d.pending + [op];
    assert ops[..|ops| - 1] == d.pending;
    if !Possible(model, d, dir) && model == AnySubset {
      prev :| PossibleFrom(model, d.durable, d.pending, prev) && dir == ApplyOp(prev, op);
    }
  }

  lemma LiveAfter(model: CrashModel, d: Disk, op: Op, dir: Dir) returns (prev: Dir)
    requires Live(model, Pend(d, op), dir)
    ensures Live(model, d, prev)
    ensures dir == ApplyOp(prev, op) || (dir == prev && model == AnySubset)
  {
    var ops := d.pending + [op];
    assert ops[..|ops| - 1] == d.pending;
    prev := Visible(d);
    if model == AnySubset {
      if Possible(model, d, dir) {
        prev := dir;
      } else {
        prev := PossibleAfter(model, d, op, dir);
      }
    }
  }

  lemma VisibleAfter(d: Disk, op: Op)
    ensures Visible(Pend(d, op)) == ApplyOp(Visible(d), op)
  {
    var ops := d.pending + [op];
    assert ops[..|ops| - 1] == d.pending;
  }

  // ------------------------------------------------------------------
  // What a process does
  // ------------------------------------------------------------------

  datatype Instr =
    | Create(name: Name, content: Content)
    | Fsync(name: Name)
    | Link(from: Name, to: Name)
    | Rename(from: Name, to: Name)
    | Unlink(name: Name)
    | Barrier

  function Step(d: Disk, i: Instr): Disk
    requires WellFormed(d)
  {
    var here := Visible(d);
    VisibleIsPossible(InOrder, d.durable, d.pending);
    PossibleInRange(InOrder, d.inodes, d.durable, d.pending, here);
    match i
    case Create(name, content) =>
      Disk(d.inodes + [Inode(content, false)], d.durable, d.pending + [Put(name, |d.inodes|)])
    case Fsync(name) =>
      if name in here then d.(inodes := d.inodes[here[name] := d.inodes[here[name]].(synced := true)]) else d
    case Link(from, to) =>
      if from in here then Pend(d, Put(to, here[from])) else d
    case Rename(from, to) =>
      if from in here then Pend(d, Shift(from, to, here[from])) else d
    case Unlink(name) =>
      if name in here then Pend(d, Drop(name)) else d
    case Barrier =>
      Disk(d.inodes, here, [])
  }

  /** The same instruction on what a process sees. */
  function ViewStep(v: View, i: Instr): View {
    match i
    case Create(name, content) => v[name := content]
    case Fsync(_) => v
    case Link(from, to) => if from in v then v[to := v[from]] else v
    case Rename(from, to) => if from in v then (v - {from})[to := v[from]] else v
    case Unlink(name) => v - {name}
    case Barrier => v
  }

  /** What a pending change does to a directory, in terms of contents. */
  function EditView(v: View, inodes: seq<Inode>, op: Op): View
    requires op.Drop? || op.ino < |inodes|
  {
    match op
    case Put(name, ino) => v[name := inodes[ino].content]
    case Drop(name) => v - {name}
    case Shift(from, to, ino) => (v - {from})[to := inodes[ino].content]
  }

  lemma ApplyOpSees(inodes: seq<Inode>, dir: Dir, op: Op)
    requires InRange(inodes, dir)
    requires op.Drop? || op.ino < |inodes|
    ensures InRange(inodes, ApplyOp(dir, op))
    ensures ViewIn(inodes, ApplyOp(dir, op)) == EditView(ViewIn(inodes, dir), inodes, op)
  {
  }

  lemma PendSees(d: Disk, op: Op)
    requires WellFormed(d)
    requires op.Drop? || op.ino < |d.inodes|
    ensures WellFormed(Pend(d, op))
    ensures InRange(d.inodes, Visible(d))
    ensures ViewOf(Pend(d, op)) == EditView(ViewOf(d), d.inodes, op)
  {
    VisibleIsPossible(InOrder, d.durable, d.pending);
    PossibleInRange(InOrder, d.inodes, d.durable, d.pending, Visible(d));
    VisibleAfter(d, op);
    ApplyOpSees(d.inodes, Visible(d), op);
  }

  lemma StepSees(d: Disk, i: Instr)
    requires WellFormed(d)
    ensures WellFormed(Step(d, i))
    ensures ViewOf(Step(d, i)) == ViewStep(ViewOf(d), i)
  {
    var here := Visible(d);
    VisibleIsPossible(InOrder, d.durable, d.pending);
    PossibleInRange(InOrder, d.inodes, d.durable, d.pending, here);
    match i
    case Create(name, content) =>
      CreateSees(d, name, content);
    case Fsync(name) =>
      assert ViewOf(Step(d, i)) == ViewOf(d);
    case Link(from, to) =>
      if from in here { PendSees(d, Put(to, here[from])); }
    case Rename(from, to) =>
      if from in here { PendSees(d, Shift(from, to, here[from])); }
    case Unlink(name) =>
      if name in here { PendSees(d, Drop(name)); } else { assert ViewOf(d) - {name} == ViewOf(d); }
    case Barrier =>
  }

  lemma CreateSees(d: Disk, name: Name, content: Content)
    requires WellFormed(d)
    ensures WellFormed(Step(d, Create(name, content)))
    ensures ViewOf(Step(d, Create(name, content))) == ViewOf(d)[name := content]
  {
    VisibleIsPossible(InOrder, d.durable, d.pending);
    PossibleInRange(InOrder, d.inodes, d.durable, d.pending, Visible(d));
    var grown := Disk(d.inodes + [Inode(content, false)], d.durable, d.pending);
    assert ViewOf(grown) == ViewOf(d);
    PendSees(grown, Put(name, |d.inodes|));
  }

  function Exec(d: Disk, trace: seq<Instr>): (r: Disk)
    requires WellFormed(d)
    ensures WellFormed(r)
    decreases |trace|
  {
    if trace == [] then d
    else StepSees(d, trace[0]); Exec(Step(d, trace[0]), trace[1..])
  }

  function ViewExec(v: View, trace: seq<Instr>): View
    decreases |trace|
  {
    if trace == [] then v else ViewExec(ViewStep(v, trace[0]), trace[1..])
  }

  lemma {:induction false} ExecSees(d: Disk, trace: seq<Instr>)
    requires WellFormed(d)
    ensures ViewOf(Exec(d, trace)) == ViewExec(ViewOf(d), trace)
    decreases |trace|
  {
    if trace != [] {
      StepSees(d, trace[0]);
      ExecSees(Step(d, trace[0]), trace[1..]);
    }
  }

  lemma {:induction false} ExecConcat(d: Disk, a: seq<Instr>, b: seq<Instr>)
    requires WellFormed(d)
    ensures Exec(d, a + b) == Exec(Exec(d, a), b)
    decreases |a|
  {
    if a == [] {
      assert a + b == b;
    } else {
      StepSees(d, a[0]);
      assert (a + b)[1..] == a[1..] + b;
      ExecConcat(Step(d, a[0]), a[1..], b);
    }
  }

  lemma {:induction false} ViewExecConcat(v: View, a: seq<Instr>, b: seq<Instr>)
    ensures ViewExec(v, a + b) == ViewExec(ViewExec(v, a), b)
    decreases |a|
  {
    if a == [] {
      assert a + b == b;
    } else {
      assert (a + b)[1..] == a[1..] + b;
      ViewExecConcat(ViewStep(v, a[0]), a[1..], b);
    }
  }
}
