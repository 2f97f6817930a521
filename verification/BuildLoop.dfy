/**
  The build loop of a merge: the entries of every source, one after another, into a target
  that may hold so many and no more.
*/
module BuildLoop {
  import opened Basics

  /** Every entry of every source; a later source wins. */
  function United(tables: seq<Table>): Table {
    if tables == [] then map[] else United(tables[..|tables| - 1]) + tables[|tables| - 1]
  }

  /** How many entries the sources hold, each copy counted. */
  function Copies(tables: seq<Table>): nat {
    if tables == [] then 0 else Copies(tables[..|tables| - 1]) + |tables[|tables| - 1]|
  }

  ghost predicate Disjoint(tables: seq<Table>) {
    forall i, j, k :: 0 <= i < j < |tables| && k in tables[i] ==> k !in tables[j]
  }

  lemma {:induction false} UnitedHolds(tables: seq<Table>)
    ensures forall i, k :: 0 <= i < |tables| && k in tables[i] ==> k in United(tables)
    ensures forall k :: k in United(tables) ==> exists i :: 0 <= i < |tables| && k in tables[i]
  {
    if tables != [] {
      var init := tables[..|tables| - 1];
      UnitedHolds(init);
      forall i, k | 0 <= i < |tables| && k in tables[i] ensures k in United(tables) {
        if i < |init| { assert k in init[i]; }
      }
      forall k | k in United(tables) ensures exists i :: 0 <= i < |tables| && k in tables[i] {
        if k in United(init) {
          var i :| 0 <= i < |init| && k in init[i];
          assert k in tables[i];
        } else {
          assert k in tables[|tables| - 1];
        }
      }
    }
  }

  ghost predicate Apart(a: Table, b: Table) {
    forall k :: k in a ==> k !in b
  }

  lemma UnionSize(a: set<Key>, b: set<Key>)
    ensures |a + b| == |a| + |b| - |a * b|
    ensures |a * b| <= |b|
    ensures |a * b| == 0 <==> forall k :: k in a ==> k !in b
  {
    assert |b| == |a * b| + |b - a| by { assert b == (a * b) + (b - a); }
    if a * b == {} {
      assert forall k :: k in a && k in b ==> k in a * b;
    }
  }

  lemma SumSize(a: Table, b: Table)
    ensures |a + b| <= |a| + |b|
    ensures |a + b| == |a| + |b| <==> Apart(a, b)
    ensures |a| <= |a + b|
  {
    UnionSize(a.Keys, b.Keys);
    assert (a + b).Keys == a.Keys + b.Keys;
    assert |a + b| == |(a + b).Keys| && |a| == |a.Keys| && |b| == |b.Keys|;
  }

  lemma DisjointStep(tables: seq<Table>)
    requires |tables| > 0
    ensures Disjoint(tables) <==>
              Disjoint(tables[..|tables| - 1]) && Apart(United(tables[..|tables| - 1]), tables[|tables| - 1])
  {
    var init := tables[..|tables| - 1];
    UnitedHolds(init);
    if Disjoint(tables) {
      forall i, j, k | 0 <= i < j < |init| && k in init[i] ensures k !in init[j] {
        assert k in tables[i];
      }
      forall k | k in United(init) ensures k !in tables[|tables| - 1] {
        var i :| 0 <= i < |init| && k in init[i];
        assert k in tables[i];
      }
    }
    if Disjoint(init) && Apart(United(init), tables[|tables| - 1]) {
      forall i, j, k | 0 <= i < j < |tables| && k in tables[i] ensures k !in tables[j] {
        assert k in init[i];
        if j < |init| { assert k !in init[j]; }
      }
    }
  }

  /** There are as many keys as copies exactly when no two sources share one. */
  lemma {:induction false} SharedKeysAreFewer(tables: seq<Table>)
    ensures |United(tables)| <= Copies(tables)
    ensures |United(tables)| == Copies(tables) <==> Disjoint(tables)
  {
    if tables != [] {
      SharedKeysAreFewer(tables[..|tables| - 1]);
      SumSize(United(tables[..|tables| - 1]), tables[|tables| - 1]);
      DisjointStep(tables);
    }
  }

  lemma {:induction false} UnitedGrows(tables: seq<Table>, i: nat)
    requires i < |tables|
    ensures |United(tables[..i + 1])| <= |United(tables)|
    decreases |tables|
  {
    var init := tables[..|tables| - 1];
    if i < |init| {
      UnitedGrows(init, i);
      assert init[..i + 1] == tables[..i + 1];
      SumSize(United(init), tables[|tables| - 1]);
    } else {
      assert tables[..i + 1] == tables;
    }
  }

  // ------------------------------------------------------------------
  // The loop
  // ------------------------------------------------------------------

  /** What the answer says of the sources. `roomy`: no insertion finds the segment out of memory;
      `opens`: every source can be read. */
  ghost predicate Answers(tables: seq<Table>, limit: nat, roomy: bool, opens: bool, r: Result<Table>) {
    && (r.Ok? ==> opens && Disjoint(tables) && Copies(tables) <= limit && r.value == United(tables))
    && (r == Err(DuplicateKey) ==> !Disjoint(tables))
    && (r == Err(InsufficientSpace) && roomy ==> |United(tables)| > limit)
    && (r == Err(FileOpenFailed) ==> !opens)
    && (r.Err? ==> r.error == DuplicateKey || r.error == InsufficientSpace || r.error == FileOpenFailed)
  }

  predicate Opens(sources: seq<nat>, unreadable: set<nat>) {
    forall i :: 0 <= i < |sources| ==> sources[i] !in unreadable
  }

  /** Where the loop is in a source: `rest` is still to be moved. */
  ghost predicate Moving(before: Table, source: Table, rest: set<Key>, target: Table) {
    && (forall k :: k in rest ==> k in source)
    && (forall k :: k in target <==> k in before || (k in source && k !in rest))
    && (forall k :: k in source && k !in rest ==> k !in before && target[k] == source[k])
    && (forall k :: k in before ==> target[k] == before[k])
  }

  lemma MovedOne(before: Table, source: Table, rest: set<Key>, target: Table, key: Key)
    requires Moving(before, source, rest, target) && key in rest && key !in target
    ensures Moving(before, source, rest - {key}, target[key := source[key]])
    ensures |target[key := source[key]]| == |target| + 1
  {
    var next := target[key := source[key]];
    assert next.Keys == target.Keys + {key};
    assert |next| == |next.Keys| && |target| == |target.Keys|;
  }

  lemma MovedAll(before: Table, source: Table, target: Table)
    requires Moving(before, source, {}, target)
    ensures target == before + source && Apart(before, source)
  {
  }

  /** No room for one more key means more keys than room. */
  lemma NoRoom(before: Table, source: Table, rest: set<Key>, target: Table, key: Key)
    requires Moving(before, source, rest, target) && key in rest && key !in target
    ensures |before + source| > |target|
  {
    var whole := (before + source).Keys;
    var held := target.Keys + {key};
    assert whole == held + (whole - held);
    assert |held| == |target.Keys| + 1;
    assert |before + source| == |whole| && |target| == |target.Keys|;
  }

  lemma SharedWith(tables: seq<Table>, i: nat)
    requires i < |tables| && !Apart(United(tables[..i]), tables[i])
    ensures !Disjoint(tables)
  {
    UnitedHolds(tables[..i]);
    var key :| key in United(tables[..i]) && key in tables[i];
    var j :| 0 <= j < i && key in tables[..i][j];
    assert key in tables[j];
  }

  lemma UnitedStep(tables: seq<Table>, i: nat)
    requires i < |tables|
    ensures United(tables[..i + 1]) == United(tables[..i]) + tables[i]
    ensures Copies(tables[..i + 1]) == Copies(tables[..i]) + |tables[i]|
  {
    assert tables[..i + 1][..i] == tables[..i];
  }

  /** The entries of one source, in whatever order its map gives them, into a target that already
      holds `before`. `throwsAt`: how many entries are in when an insertion finds no memory. */
  method MoveSource(before: Table, source: Table, limit: nat, throwsAt: Option<nat>) returns (r: Result<Table>)
    requires |before| <= limit
    ensures r.Ok? ==> r.value == before + source && Apart(before, source) && |before + source| <= limit
    ensures r == Err(DuplicateKey) ==> !Apart(before, source)
    ensures r == Err(InsufficientSpace) && throwsAt.None? ==> |before + source| > limit
    ensures r.Err? ==> r.error == DuplicateKey || r.error == InsufficientSpace
  {
    var target := before;
    var rest := source.Keys;
    while rest != {}
      invariant Moving(before, source, rest, target)
      invariant |target| <= limit
      decreases |rest|
    {
      var key :| key in rest;
      if |target| >= limit {
        if key in target { return Err(DuplicateKey); }
        NoRoom(before, source, rest, target, key);
        return Err(InsufficientSpace);
      }
      if throwsAt == Some(|target|) { return Err(InsufficientSpace); }
      if key in target { return Err(DuplicateKey); }
      MovedOne(before, source, rest, target, key);
      target := target[key := source[key]];
      rest := rest - {key};
    }
    MovedAll(before, source, target);
    r := Ok(target);
  }

  /** What the loop has after `i` sources. */
  ghost predicate Collected(tables: seq<Table>, i: nat, limit: nat, target: Table) {
    i <= |tables| && target == United(tables[..i]) && |target| <= limit && Disjoint(tables[..i])
  }

  lemma CollectedNone(tables: seq<Table>, limit: nat)
    ensures Collected(tables, 0, limit, map[])
  {
  }

  lemma CollectedOne(tables: seq<Table>, i: nat, limit: nat, target: Table)
    requires i < |tables| && Collected(tables, i, limit, target)
    requires Apart(target, tables[i]) && |target + tables[i]| <= limit
    ensures Collected(tables, i + 1, limit, target + tables[i])
  {
    UnitedStep(tables, i);
    var upTo := tables[..i + 1];
    assert upTo[..|upTo| - 1] == tables[..i];
    DisjointStep(upTo);
  }

  lemma StoppedHere(tables: seq<Table>, i: nat, limit: nat, target: Table, roomy: bool, opens: bool, why: Error)
    requires i < |tables| && Collected(tables, i, limit, target)
    requires why == DuplicateKey ==> !Apart(target, tables[i])
    requires why == InsufficientSpace && roomy ==> |target + tables[i]| > limit
    requires why == DuplicateKey || why == InsufficientSpace
    ensures Answers(tables, limit, roomy, opens, Err(why))
  {
    UnitedStep(tables, i);
    UnitedGrows(tables, i);
    if why == DuplicateKey { SharedWith(tables, i); }
  }

  lemma CollectedAll(tables: seq<Table>, limit: nat, target: Table, roomy: bool)
    requires Collected(tables, |tables|, limit, target)
    ensures Answers(tables, limit, roomy, true, Ok(target))
  {
    assert tables[..|tables|] == tables;
    SharedKeysAreFewer(tables);
  }

  /** One source, which may refuse to open. */
  method CollectSource(tables: seq<Table>, sources: seq<nat>, unreadable: set<nat>, i: nat, limit: nat, throwsAt: Option<nat>,
                       target: Table) returns (r: Result<Table>)
    requires |sources| == |tables| && i < |tables| && Collected(tables, i, limit, target)
    ensures r.Ok? ==> sources[i] !in unreadable && Collected(tables, i + 1, limit, r.value)
    ensures r.Err? ==> Answers(tables, limit, throwsAt.None?, Opens(sources, unreadable), r)
  {
    if sources[i] in unreadable { return Err(FileOpenFailed); }
    r := MoveSource(target, tables[i], limit, throwsAt);
    if r.Ok? {
      CollectedOne(tables, i, limit, target);
    } else {
      StoppedHere(tables, i, limit, target, throwsAt.None?, Opens(sources, unreadable), r.error);
    }
  }

  /** Every entry of every source into one target. */
  method CollectEntries(tables: seq<Table>, sources: seq<nat>, unreadable: set<nat>, limit: nat, throwsAt: Option<nat>)
    returns (r: Result<Table>)
    requires |sources| == |tables|
    ensures Answers(tables, limit, throwsAt.None?, Opens(sources, unreadable), r)
  {
    var target: Table := map[];
    CollectedNone(tables, limit);
    for i := 0 to |sources|
      invariant Collected(tables, i, limit, target)
      invariant forall j :: 0 <= j < i ==> sources[j] !in unreadable
    {
      r := CollectSource(tables, sources, unreadable, i, limit, throwsAt, target);
      if r.Err? { return; }
      target := r.value;
    }
    CollectedAll(tables, limit, target, throwsAt.None?);
    r := Ok(target);
  }

  /** The error tells the caller which kind of trouble it is. With nothing failing, a key held
      twice is always reported as one when the distinct keys fit, and sources that share no key
      are merged exactly when their entries fit. */
  lemma Classification(tables: seq<Table>, limit: nat, r: Result<Table>)
    requires Answers(tables, limit, true, true, r)
    ensures !Disjoint(tables) && |United(tables)| <= limit ==> r == Err(DuplicateKey)
    ensures Disjoint(tables) ==> r == if Copies(tables) <= limit then Ok(United(tables)) else Err(InsufficientSpace)
    ensures |United(tables)| > limit ==> r.Err?
  {
    SharedKeysAreFewer(tables);
  }
}
