/**
  What every part of the model shares: the value types of the store, the error
  codes it answers with, and the arithmetic of splitting one map into several.
*/
module Basics {

  datatype Option<+T> = None | Some(value: T)

  /** Error codes of `include/utxoz/types.hpp` that the modelled code can answer with. */
  datatype Error =
    | Closed
    | InspectionOnly
    | RecoveryRequired
    | RecoveryFailed
    | EntryCorrupt
    | FileOpenFailed
    | InsufficientSpace
    | DuplicateKey
    | IdentityCollision
    | RenameFailed
    | SyncFailed
    | RemovalFailed
    | MetadataWriteFailed
    | VersionUnreadable
    | CatalogUnreadable
    | ValueTooLarge
    | EntropyUnavailable

  datatype Result<+T> = Ok(value: T) | Err(error: Error)

  /** An outpoint is thirty-six bytes. Read as one big-endian number, `memcmp` is `<`. */
  type Key = nat

  datatype Entry = Entry(height: nat, data: seq<nat>)

  type Table = map<Key, Entry>

  // ------------------------------------------------------------------
  // Ascending lists of version numbers
  // ------------------------------------------------------------------

  predicate Ascending(s: seq<nat>) {
    forall i, j :: 0 <= i < j < |s| ==> s[i] < s[j]
  }

  function MaxOf(s: set<nat>): (m: nat)
    requires s != {}
    ensures m in s
    ensures forall x :: x in s ==> x <= m
  {
    MaxExists(s);
    var m :| m in s && forall x :: x in s ==> x <= m;
    m
  }

  lemma {:induction false} FindMax(s: set<nat>) returns (m: nat)
    requires s != {}
    ensures m in s && forall x :: x in s ==> x <= m
  {
    m :| m in s;
    var rest := s - {m};
    if rest != {} {
      var other := FindMax(rest);
      m := if m < other then other else m;
    }
    forall x | x in s ensures x <= m { if x !in rest {} }
  }

  lemma MaxExists(s: set<nat>)
    requires s != {}
    ensures exists m :: m in s && forall x :: x in s ==> x <= m
  {
    var m := FindMax(s);
  }

  /** The directory listing of a class: the versions found, sorted, each once. */
  function Listed(s: set<nat>): (r: seq<nat>)
    ensures Ascending(r)
    ensures forall x :: x in r <==> x in s
    ensures |r| == |s|
  {
    if s == {} then [] else
      var m := MaxOf(s);
      var before := Listed(s - {m});
      before + [m]
  }

  /** The catalogue without one version. */
  function Without(s: seq<nat>, gone: set<nat>): (r: seq<nat>)
    ensures forall x :: x in r <==> x in s && x !in gone
    ensures Ascending(s) ==> Ascending(r)
  {
    if s == [] then []
    else
      var before := Without(s[..|s| - 1], gone);
      var last := s[|s| - 1];
      assert s == s[..|s| - 1] + [last];
      assert Ascending(s) ==> forall i :: 0 <= i < |before| ==> before[i] < last by {
        assert forall i :: 0 <= i < |before| ==> before[i] in s[..|s| - 1];
      }
      if last in gone then before else before + [last]
  }

  // ------------------------------------------------------------------
  // One map held in several pieces
  // ------------------------------------------------------------------

  ghost predicate Holds(ts: map<nat, Table>, v: nat, k: Key) {
    v in ts && k in ts[v]
  }

  /** The pieces hold exactly `m`, and no key lies in two of them. */
  ghost predicate Partition(ts: map<nat, Table>, m: Table) {
    && (forall v, k :: Holds(ts, v, k) ==> k in m && m[k] == ts[v][k])
    && (forall k :: k in m ==> exists v :: Holds(ts, v, k))
    && (forall v, w, k :: Holds(ts, v, k) && Holds(ts, w, k) ==> v == w)
  }

  /** What a merge of `sources` builds: every entry of every source. */
  function MergedOf(ts: map<nat, Table>, sources: seq<nat>): (r: Table)
    requires forall s :: s in sources ==> s in ts
  {
    if sources == [] then map[]
    else MergedOf(ts, sources[..|sources| - 1]) + ts[sources[|sources| - 1]]
  }

  lemma {:induction false} MergedOfHolds(ts: map<nat, Table>, sources: seq<nat>, m: Table)
    requires forall s :: s in sources ==> s in ts
    requires Partition(ts, m)
    ensures forall k :: k in MergedOf(ts, sources) <==> exists s :: s in sources && Holds(ts, s, k)
    ensures forall k :: k in MergedOf(ts, sources) ==> k in m && MergedOf(ts, sources)[k] == m[k]
  {
    if sources != [] {
      var init := sources[..|sources| - 1];
      var last := sources[|sources| - 1];
      assert sources == init + [last];
      MergedOfHolds(ts, init, m);
      forall k ensures k in MergedOf(ts, sources) <==> exists s :: s in sources && Holds(ts, s, k) {
        if k in ts[last] { assert last in sources && Holds(ts, last, k); }
        if s :| s in sources && Holds(ts, s, k) {
          if s != last { assert s in init; }
        }
      }
      forall k | k in MergedOf(ts, sources)
        ensures k in m && MergedOf(ts, sources)[k] == m[k]
      {
        if k in ts[last] { assert Holds(ts, last, k); }
      }
    }
  }

  /** The tables once `sources` have been replaced by one new table `t`. */
  function Replaced(ts: map<nat, Table>, sources: seq<nat>, t: nat): map<nat, Table>
    requires forall s :: s in sources ==> s in ts
  {
    (ts - (set s | s in sources))[t := MergedOf(ts, sources)]
  }

  /** Merging some pieces into a new one keeps the whole. */
  lemma PartitionReplaced(ts: map<nat, Table>, sources: seq<nat>, t: nat, m: Table)
    requires Partition(ts, m)
    requires forall s :: s in sources ==> s in ts
    requires t !in ts
    ensures Partition(Replaced(ts, sources, t), m)
  {
    var after := Replaced(ts, sources, t);
    MergedOfHolds(ts, sources, m);
    forall v, k | Holds(after, v, k) ensures k in m && m[k] == after[v][k] {
      if v != t { assert Holds(ts, v, k); }
    }
    forall k | k in m ensures exists v :: Holds(after, v, k) {
      var v :| Holds(ts, v, k);
      if v in sources { assert Holds(after, t, k); } else { assert Holds(after, v, k); }
    }
    forall v, w, k | Holds(after, v, k) && Holds(after, w, k) ensures v == w {
      if v == t && w != t {
        var s :| s in sources && Holds(ts, s, k);
        assert Holds(ts, w, k);
      } else if w == t && v != t {
        var s :| s in sources && Holds(ts, s, k);
        assert Holds(ts, v, k);
      } else if v != t {
        assert Holds(ts, v, k) && Holds(ts, w, k);
      }
    }
  }
}
