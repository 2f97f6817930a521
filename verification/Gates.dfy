/**
  The gates in front of every operation (`src/database.cpp`): which of them stops what, in which
  order, and why what gets through never sees a key twice.
*/
module Gates {
  import opened Basics
  import opened Disk
  import opened Recovery
  import opened Batch
  import opened StoreState
  import opened Insertion
  import opened Deletion
  import opened Retry
  import opened Runs

  /** An open instance, and whether it was opened for inspection only. */
  datatype Instance = Instance(state: State, inspectionOnly: bool)

  datatype Operation = Inserts | Finds | Resolves | Deletes | Compacts | Visits | Syncs | Censuses | Verifies

  /** What a caller is served entries or a verdict by. A sync serves nothing, and a census counts copies. */
  predicate Serves(op: Operation) { op != Syncs && op != Censuses }

  /** The handle a caller holds. A closed one, or one moved from, has no instance. */
  class Handle {
    var impl: Option<Instance>

    constructor (i: Instance)
      ensures impl == Some(i)
    {
      impl := Some(i);
    }

    /** `close`. Every operation is refused from here on. */
    method Close()
      modifies this
      ensures forall op :: Gate(impl, op) == Some(Closed)
    {
      impl := None;
    }

    /** The integrity latch, with the code it carries. */
    method RefuseIfIntegrityLatched() returns (refusal: Option<Error>)
      requires impl.Some?
      ensures refusal == impl.value.state.integrity
    {
      refusal := impl.value.state.integrity;
    }

    /** Both latches, the integrity latch first. */
    method RefuseIfUnusable() returns (refusal: Option<Error>)
      requires impl.Some?
      ensures refusal.None? <==> Usable(impl.value.state)
      ensures refusal.Some? ==> refusal == if impl.value.state.integrity.Some? then impl.value.state.integrity else Some(RecoveryRequired)
    {
      refusal := RefuseIfIntegrityLatched();
      if refusal.None? && impl.value.state.cleanup { refusal := Some(RecoveryRequired); }
    }

    /** What stands before each operation. */
    method Refusal(op: Operation) returns (refusal: Option<Error>)
      ensures refusal == Gate(impl, op)
    {
      if impl.None? { return Some(Closed); }
      match op
      case Censuses =>
        refusal := RefuseIfIntegrityLatched();
      case Verifies =>
        refusal := RefuseIfIntegrityLatched();
        if refusal.None? && impl.value.state.cleanup { refusal := Some(RecoveryRequired); }
      case Syncs =>
        refusal := RefuseIfIntegrityLatched();
        if refusal.None? && impl.value.inspectionOnly { refusal := Some(InspectionOnly); }
      case _ =>
        refusal := RefuseIfUnusable();
        if refusal.None? && impl.value.inspectionOnly { refusal := Some(InspectionOnly); }
    }

    /** A batch of deletions that is not let through comes back whole: each distinct key once, unresolved. */
    method RefuseBatch(requests: seq<Request>) returns (p: Option<Progress>)
      ensures p.None? <==> Gate(impl, Deletes).None?
      ensures p.Some? ==>
                && p.value.erased == [] && p.value.absent == [] && p.value.error == Gate(impl, Deletes)
                && InBatch(requests, WorkingSet(requests)) && p.value.unresolved == Picked(requests, WorkingSet(requests))
    {
      var refusal := Refusal(Deletes);
      if refusal.None? { return None; }
      var progress := RefuseDeletions(requests, refusal.value);
      p := Some(progress);
    }
  }

  /** The refusal an operation meets, as one table. */
  function Gate(impl: Option<Instance>, op: Operation): Option<Error> {
    if impl.None? then Some(Closed)
    else if impl.value.state.integrity.Some? then impl.value.state.integrity
    else if Serves(op) && impl.value.state.cleanup then Some(RecoveryRequired)
    else if op != Censuses && op != Verifies && impl.value.inspectionOnly then Some(InspectionOnly)
    else None
  }

  /** What changes an entry, a file or the directory. */
  predicate Writes(op: Operation) { op == Inserts || op == Deletes || op == Compacts || op == Syncs }

  /** When an operation is let through, by what it does. An instance opened for inspection never writes, and serves only a
      census and a verdict; one whose integrity latch is set does nothing, not even a sync or a census, and answers the
      latch's own code; one whose cleanup is pending serves nothing, and answers that recovery is required. */
  lemma LetThrough(i: Instance, op: Operation)
    ensures Gate(None, op) == Some(Closed)
    ensures i.inspectionOnly ==> (Writes(op) ==> Gate(Some(i), op).Some?) && (Gate(Some(i), op).None? ==> op == Censuses || op == Verifies)
    ensures i.state.integrity.Some? ==> Gate(Some(i), op) == i.state.integrity
    ensures i.state.integrity.None? && i.state.cleanup ==> (Gate(Some(i), op) == Some(RecoveryRequired) <==> op != Syncs && op != Censuses)
    ensures i.state.integrity.None? && !i.state.cleanup && !i.inspectionOnly ==> Gate(Some(i), op).None?
    ensures i.state.integrity.None? ==> (op == Censuses ==> Gate(Some(i), op).None?)
    ensures i.state.integrity.None? && op == Syncs ==> Gate(Some(i), op) == if i.inspectionOnly then Some(InspectionOnly) else None
  {
  }

  ghost predicate HeldOnDisk(views: seq<View>, c: nat, v: nat, k: Key) {
    c < |views| && Data(v) in views[c] && views[c][Data(v)].Rows? && k in views[c][Data(v)].table
  }

  /** No key lies in two canonical files, whichever classes they belong to. */
  ghost predicate OnceOnDisk(views: seq<View>) {
    forall c, v, d, w, k :: HeldOnDisk(views, c, v, k) && HeldOnDisk(views, d, w, k) ==> c == d && v == w
  }

  /** The gates keep what a caller is served unique: in every reachable state above no merge in flight, an operation that
      serves entries or a verdict gets through only where no canonical file repeats a key of another. */
  lemma ServedIsUnique(capacities: seq<nat>, r: Run, m: Table, i: Instance, op: Operation)
    requires Inv(capacities, r, m) && r.open == Some(i.state) && Sealed(r)
    requires Serves(op) && Gate(Some(i), op).None?
    ensures OnceOnDisk(r.views)
    ensures forall c, t :: 0 <= c < |r.views| ==> Record(t) !in r.views[c]
  {
    ServedOnce(capacities, r, m);
    var s := i.state;
    forall c, v, d, w, k | HeldOnDisk(r.views, c, v, k) && HeldOnDisk(r.views, d, w, k) ensures c == d && v == w {
      assert Stores(s.files, File(c, v), k) && Stores(s.files, File(d, w), k);
    }
  }

  /** A directory that holds a target beside its sources belongs to an instance that is latched, and every operation that
      would serve from it is refused, if and only if no merge was left by an exception with its record named. */
  lemma DoubledIsRefused(capacities: seq<nat>, r: Run, m: Table, i: Instance, op: Operation)
    requires Inv(capacities, r, m) && r.open == Some(i.state)
    requires !OnceOnDisk(r.views) && Serves(op)
    ensures Sealed(r) <==> i.state.integrity.Some? || i.state.cleanup
    ensures Sealed(r) ==> Gate(Some(i), op) == if i.state.integrity.Some? then i.state.integrity else Some(RecoveryRequired)
  {
    if Usable(i.state) && Sealed(r) { ServedIsUnique(capacities, r, m, Instance(i.state, false), Finds); }
  }
}
