/**
  What a directory of one size class means, whatever a merge was doing in it, and
  what recovery makes of it (`recover_one`, `recover_pending_merges`).

  A record whose target is published supersedes its sources: those files are redundant,
  and every other canonical file counts. That reading is what no step of a merge, no
  crash and no recovery may change.
*/
module Recovery {
  import opened Basics
  import opened Disk

  /** `decode_merge_plan` refuses a record naming more sources than this. */
  const MAX_SOURCES: nat := 64

  function DataVersions(view: View): set<nat> {
    set n | n in view && n.Data? :: n.version
  }

  function Records(view: View): set<nat> {
    set n | n in view && n.Record? :: n.version
  }

  /** Every canonical file with its entries. */
  function Tables(view: View): map<nat, Table> {
    map v | v in DataVersions(view) && view[Data(v)].Rows? :: view[Data(v)].table
  }

  ghost predicate Superseded(view: View, v: nat) {
    exists t :: SupersededBy(view, t, v)
  }

  ghost predicate SupersededBy(view: View, t: nat, v: nat) {
    Record(t) in view && Data(t) in view && view[Record(t)].Sidecar? && v in view[Record(t)].plan.sources
  }

  /** The canonical files that count. */
  ghost function Effective(view: View): map<nat, Table> {
    map v | v in Tables(view) && !Superseded(view, v) :: Tables(view)[v]
  }

  ghost predicate Coherent(plan: Plan, t: nat) {
    && plan.target == t
    && t !in plan.sources
    && |plan.sources| > 0
    && Ascending(plan.sources)
    && plan.id != 0
  }

  /** At most one merge is in flight, its record is coherent, and a file at the target's
      name is the one the record means. */
  ghost predicate RecordsOk(view: View) {
    && (forall t, u :: Record(t) in view && Record(u) in view ==> t == u)
    && (forall t :: Record(t) in view ==>
          view[Record(t)].Sidecar? && Coherent(view[Record(t)].plan, t))
    && (forall t :: Record(t) in view && Data(t) in view ==>
          view[Data(t)].Rows? && view[Record(t)].Sidecar? &&
          view[Data(t)].marker == Some(view[Record(t)].plan.id))
    && (forall v :: Data(v) in view ==> view[Data(v)].Rows?)
  }

  /** The directory holds exactly `m`. */
  ghost predicate Represents(view: View, m: Table) {
    RecordsOk(view) && Partition(Effective(view), m)
  }

  /** No record in flight: every canonical file counts, so the whole store is one partition. */
  lemma SettledMeansAll(view: View)
    requires Records(view) == {}
    ensures Effective(view) == Tables(view)
  {
    RecordsAreNamed(view);
  }

  lemma RecordsAreNamed(view: View)
    ensures forall t :: Record(t) in view <==> t in Records(view)
  {
  }

  // ------------------------------------------------------------------
  // The directory edits that keep the meaning
  // ------------------------------------------------------------------

  /** The two views agree on every name that carries meaning. */
  ghost predicate SameMeaning(a: View, b: View) {
    forall n: Name :: n.Data? || n.Record? ==> (n in a <==> n in b) && (n in a ==> a[n] == b[n])
  }

  lemma SameTables(a: View, b: View)
    requires forall v :: (Data(v) in a <==> Data(v) in b) && (Data(v) in a ==> a[Data(v)] == b[Data(v)])
    ensures Tables(a) == Tables(b)
  {
    forall v ensures v in DataVersions(a) <==> v in DataVersions(b) {
      assert v in DataVersions(a) <==> Data(v) in a;
      assert v in DataVersions(b) <==> Data(v) in b;
    }
  }

  lemma SameMeaningSameEffect(a: View, b: View)
    requires SameMeaning(a, b)
    ensures Tables(a) == Tables(b)
    ensures Effective(a) == Effective(b)
    ensures RecordsOk(a) <==> RecordsOk(b)
    ensures Records(a) == Records(b)
  {
    SameTables(a, b);
    forall t, v ensures SupersededBy(a, t, v) == SupersededBy(b, t, v) {
      assert Record(t) in a <==> Record(t) in b;
    }
    forall v ensures Superseded(a, v) == Superseded(b, v) {
      if t :| SupersededBy(a, t, v) { assert SupersededBy(b, t, v); }
      if t :| SupersededBy(b, t, v) { assert SupersededBy(a, t, v); }
    }
    if RecordsOk(a) { RecordsOkTransfers(a, b); }
    if RecordsOk(b) { RecordsOkTransfers(b, a); }
    forall t ensures t in Records(a) <==> t in Records(b) {
      assert t in Records(a) <==> Record(t) in a;
      assert t in Records(b) <==> Record(t) in b;
    }
  }

  lemma RecordsOkTransfers(a: View, b: View)
    requires SameMeaning(a, b) && RecordsOk(a)
    ensures RecordsOk(b)
  {
    forall t | Record(t) in b ensures Record(t) in a && a[Record(t)] == b[Record(t)] {}
    forall t | Data(t) in b ensures Data(t) in a && a[Data(t)] == b[Data(t)] {}
  }

  /** Naming the record before the target exists changes nothing. */
  lemma NamingTheRecord(view: View, plan: Plan, m: Table)
    requires Represents(view, m)
    requires Records(view) == {} && Data(plan.target) !in view
    requires Coherent(plan, plan.target)
    ensures Represents(view[Record(plan.target) := Sidecar(plan)], m)
  {
    var t := plan.target;
    var after := view[Record(t) := Sidecar(plan)];
    RecordsAreNamed(view);
    SameTables(view, after);
    SettledMeansAll(view);
    assert Effective(after) == Tables(after);
  }

  /** Publishing the target swaps its sources for it. */
  lemma PublishingTheTarget(view: View, plan: Plan, m: Table)
    requires Represents(view, m)
    requires Record(plan.target) in view && view[Record(plan.target)] == Sidecar(plan)
    requires Data(plan.target) !in view
    requires forall s :: s in plan.sources ==> s in Tables(view)
    ensures Represents(view[Data(plan.target) := Rows(MergedOf(Tables(view), plan.sources), Some(plan.id))], m)
  {
    var t := plan.target;
    var ts := Tables(view);
    var after := view[Data(t) := Rows(MergedOf(ts, plan.sources), Some(plan.id))];
    assert forall u :: Record(u) in view && Data(u) in view ==> u == t;
    assert Effective(view) == ts;
    PartitionReplaced(ts, plan.sources, t, m);
    assert DataVersions(after) == DataVersions(view) + {t} by {
      forall v ensures v in DataVersions(after) <==> v in DataVersions(view) || v == t {
        assert v in DataVersions(view) <==> Data(v) in view;
        assert v in DataVersions(after) <==> Data(v) in after;
      }
    }
    forall v ensures Superseded(after, v) <==> v in plan.sources {
      if v in plan.sources { assert SupersededBy(after, t, v); }
      if u :| SupersededBy(after, u, v) { assert Record(u) in view && u == t; }
    }
    assert Effective(after) == Replaced(ts, plan.sources, t);
  }

  /** Retiring a source of a published merge changes nothing that counts. */
  lemma RetiringASource(view: View, t: nat, s: nat)
    requires RecordsOk(view)
    requires SupersededBy(view, t, s)
    ensures RecordsOk(view - {Data(s)})
    ensures Effective(view - {Data(s)}) == Effective(view)
  {
    var after := view - {Data(s)};
    assert s != t;
    forall v ensures Superseded(after, v) == Superseded(view, v) {
      if u :| SupersededBy(view, u, v) { assert u == t; assert SupersededBy(after, t, v); }
      if u :| SupersededBy(after, u, v) { assert SupersededBy(view, u, v); }
    }
    forall v ensures v in Tables(after) <==> v in Tables(view) && v != s {
      assert v in DataVersions(view) <==> Data(v) in view;
      assert v in DataVersions(after) <==> Data(v) in after;
    }
    assert Superseded(view, s);
    assert RecordsOk(after) by {
      forall u | Record(u) in after ensures Record(u) in view {}
    }
  }

  /** A record may go when it supersedes nothing that is there. */
  lemma DroppingTheRecord(view: View, t: nat)
    requires RecordsOk(view)
    requires Record(t) in view ==> forall s :: SupersededBy(view, t, s) ==> Data(s) !in view
    ensures RecordsOk(view - {Record(t)})
    ensures Effective(view - {Record(t)}) == Effective(view)
  {
    var after := view - {Record(t)};
    SameTables(view, after);
    forall v | v in Tables(view) ensures Superseded(after, v) == Superseded(view, v) {
      assert v in DataVersions(view);
      assert Data(v) in view;
      if u :| SupersededBy(view, u, v) { assert u != t; assert SupersededBy(after, u, v); }
      if u :| SupersededBy(after, u, v) { assert SupersededBy(view, u, v); }
    }
    assert RecordsOk(after) by {
      forall u | Record(u) in after ensures Record(u) in view && u != t {}
    }
  }

  // ------------------------------------------------------------------
  // Recovery
  // ------------------------------------------------------------------

  function Removals(names: seq<Name>): (r: seq<Instr>)
    ensures |r| == |names|
    ensures forall i :: 0 <= i < |names| ==> r[i] == Unlink(names[i])
  {
    seq(|names|, i requires 0 <= i < |names| => Unlink(names[i]))
  }

  /** The unlinks of the sources, in order, leaving out those whose removal failed. */
  function Retire(sources: seq<nat>, stuck: set<nat>): seq<Instr> {
    if sources == [] then []
    else (if sources[0] in stuck then [] else [Unlink(Data(sources[0]))]) + Retire(sources[1..], stuck)
  }

  /** What `recover_one` does for one record it could read; `None` when it refuses. */
  function RecoverOne(view: View, plan: Plan): Option<seq<Instr>> {
    var t := plan.target;
    if Data(t) !in view then
      Some([Unlink(Building(t)), Unlink(Record(t)), Barrier])
    else if view[Data(t)].Rows? && view[Data(t)].marker == Some(plan.id) then
      Some(Retire(plan.sources, {}) + [Barrier, Unlink(Record(t)), Unlink(Building(t)), Barrier])
    else
      None
  }

  /** A record `decode_merge_plan` accepts and that describes the operation its name says. */
  predicate Readable(content: Content, t: nat) {
    content.Sidecar? && content.plan.target == t && 0 < |content.plan.sources| <= MAX_SOURCES
    && t !in content.plan.sources && Ascending(content.plan.sources) && content.plan.id != 0
  }

  /** The part of recovery that a record asks for. `None` is a refusal to open. */
  function SettleRecord(view: View): Option<seq<Instr>> {
    var listed := Listed(Records(view));
    if |listed| == 0 then Some([])
    else if |listed| > 1 then None
    else
      var t := listed[0];
      assert t in Records(view);
      if !Readable(view[Record(t)], t) then None
      else RecoverOne(view, view[Record(t)].plan)
  }

  function BuildVersions(view: View): set<nat> { set n | n in view && n.Building? :: n.version }

  function TempVersions(view: View): set<nat> { set n | n in view && n.RecordTmp? :: n.version }

  function Builds(versions: seq<nat>): (r: seq<Name>)
    ensures forall n :: n in r <==> n.Building? && n.version in versions
  {
    if versions == [] then [] else [Building(versions[0])] + Builds(versions[1..])
  }

  function Temps(versions: seq<nat>): (r: seq<Name>)
    ensures forall n :: n in r <==> n.RecordTmp? && n.version in versions
  {
    if versions == [] then [] else [RecordTmp(versions[0])] + Temps(versions[1..])
  }

  /** Unfinished builds, then unfinished records: nothing vouches for them. */
  function Strays(view: View): seq<Name> {
    Builds(Listed(BuildVersions(view))) + Temps(Listed(TempVersions(view)))
  }

  /** `recover_pending_merges` over one class, as the steps a fault or a crash can cut short.
      Every failure returns at once, so what a failed recovery did is a prefix of this. */
  function RecoveryTrace(view: View): Option<seq<Instr>> {
    match SettleRecord(view)
    case None => None
    case Some(settle) => Some(settle + Removals(Strays(ViewExec(view, settle))))
  }
}
