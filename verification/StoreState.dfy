/**
  The state of an open instance: every version of every size class with what its map holds, the
  catalogues, the running total, the register of versions owed a flush, and the latches. Then
  what a rotation and an insertion make of it.
*/
module StoreState {
  import opened Basics

  /** A version of a size class. */
  datatype File = File(cls: nat, version: nat)

  type Files = map<File, Table>

  // ------------------------------------------------------------------
  // How many entries are stored
  // ------------------------------------------------------------------

  /** Every copy of every entry, counted. */
  ghost function Weight(files: Files): nat {
    if files == map[] then 0
    else
      var f :| f in files;
      |files[f]| + Weight(files - {f})
  }

  lemma Swap(files: Files, f: File, g: File)
    ensures files - {g} - {f} == files - {f} - {g}
  {
  }

  lemma {:induction false} WeightPick(files: Files, f: File)
    requires f in files
    ensures Weight(files) == |files[f]| + Weight(files - {f})
    decreases |files|
  {
    var g :| g in files && Weight(files) == |files[g]| + Weight(files - {g});
    if g != f {
      WeightPick(files - {g}, f);
      WeightPick(files - {f}, g);
      Swap(files, f, g);
    }
  }

  lemma WeightAdd(files: Files, f: File, t: Table)
    requires f !in files
    ensures Weight(files[f := t]) == Weight(files) + |t|
  {
    var more := files[f := t];
    WeightPick(more, f);
    assert more - {f} == files;
  }

  lemma Reset(files: Files, f: File, t: Table)
    requires f in files
    ensures (files - {f})[f := t] == files[f := t]
  {
  }

  lemma WeightSet(files: Files, f: File, t: Table)
    requires f in files
    ensures Weight(files[f := t]) == Weight(files) - |files[f]| + |t|
  {
    var rest := files - {f};
    WeightPick(files, f);
    WeightAdd(rest, f, t);
    Reset(files, f, t);
  }

  // ------------------------------------------------------------------
  // What the environment does to an insertion
  // ------------------------------------------------------------------

  /** One `emplace`. `Throws` keeps the container's guarantee: nothing changed. `Damages` breaks it:
      the map is left as `after`, and its bucket count or growth point may have moved. */
  datatype Emplace = Works | Throws | Damages(after: Table, reshaped: bool)

  datatype InsertLuck = InsertLuck(
    guardRefuses: bool,          // can_insert_safely
    preventiveFails: bool,       // the rotation the guard asks for
    first: Emplace,
    capacityFails: bool,         // the rotation after the first failure
    second: Emplace)

  predicate Faithful(luck: InsertLuck) { !luck.first.Damages? && !luck.second.Damages? }

  /** `classify_post_exception`. */
  predicate Mutated(before: Table, after: Table, reshaped: bool, key: Key) {
    |after| != |before| || reshaped || key in after
  }

  /** The class a value of this size goes to. */
  predicate FirstFit(capacities: seq<nat>, size: nat, c: nat) {
    c < |capacities| && size <= capacities[c] && forall i :: 0 <= i < c ==> size > capacities[i]
  }

  /** `get_index_from_size`. */
  method ClassOf(capacities: seq<nat>, size: nat) returns (c: nat)
    ensures c <= |capacities|
    ensures c < |capacities| ==> size <= capacities[c]
    ensures forall i :: 0 <= i < c ==> size > capacities[i]
  {
    c := 0;
    while c < |capacities|
      invariant 0 <= c <= |capacities|
      invariant forall i :: 0 <= i < c ==> size > capacities[i]
    {
      if size <= capacities[c] { return; }
      c := c + 1;
    }
  }

  // ------------------------------------------------------------------
  // The state of an instance
  // ------------------------------------------------------------------

  datatype State = State(
    files: Files,                // every catalogued version with what its map holds
    catalogs: seq<seq<nat>>,
    highest: seq<nat>,           // the highest identity ever issued, per class
    rotations: seq<nat>,         // completed rotations, per class
    count: int,                  // entries_count_
    dirty: set<File>,            // dirty_versions_
    durable: set<File>,          // versions whose contents are on stable storage
    integrity: Option<Error>,    // integrity_latched_
    cleanup: bool)               // cleanup_pending_

  ghost predicate CatalogOk(versions: seq<nat>, highest: nat) {
    Ascending(versions) && |versions| > 0 && forall v :: v in versions ==> v <= highest
  }

  ghost predicate Shaped(s: State) {
    && |s.catalogs| == |s.highest| == |s.rotations|
    && (forall c :: 0 <= c < |s.catalogs| ==> CatalogOk(s.catalogs[c], s.highest[c]))
    && Named(s.files, s.catalogs)
    && s.dirty <= s.files.Keys && s.durable <= s.files.Keys
  }

  /** The files are the catalogued versions. */
  ghost predicate Named(files: Files, catalogs: seq<seq<nat>>) {
    forall f :: f in files <==> f.cls < |catalogs| && f.version in catalogs[f.cls]
  }

  /** The running total is right. */
  ghost predicate Counted(s: State) { s.count == Weight(s.files) }

  /** What the catalogued versions of a class hold. */
  function ClassTables(s: State, c: nat): map<nat, Table>
    requires c < |s.catalogs|
  {
    map v | v in s.catalogs[c] && File(c, v) in s.files :: s.files[File(c, v)]
  }

  function ActiveOf(s: State, c: nat): File
    requires c < |s.catalogs| && |s.catalogs[c]| > 0
  {
    File(c, s.catalogs[c][|s.catalogs[c]| - 1])
  }

  lemma ActiveIsThere(s: State, c: nat)
    requires Shaped(s) && c < |s.catalogs|
    ensures ActiveOf(s, c) in s.files
  {
    assert CatalogOk(s.catalogs[c], s.highest[c]);
    assert s.catalogs[c][|s.catalogs[c]| - 1] in s.catalogs[c];
  }

  ghost predicate IsActive(s: State, f: File)
    requires Shaped(s) && f in s.files
  {
    f == ActiveOf(s, f.cls)
  }

  /** Every version that is not active and not durable is owed to the next sync. */
  ghost predicate Registered(s: State)
    requires Shaped(s)
  {
    forall f :: f in s.files && f !in s.durable ==> f in s.dirty || IsActive(s, f)
  }

  /** A rotation: the retiring version is owed a flush, and an empty one takes over. */
  function Rotated(s: State, c: nat): State
    requires c < |s.catalogs| == |s.highest| == |s.rotations| && |s.catalogs[c]| > 0
  {
    var next := s.highest[c] + 1;
    s.(files := s.files[File(c, next) := map[]],
       catalogs := s.catalogs[c := s.catalogs[c] + [next]],
       highest := s.highest[c := next],
       rotations := s.rotations[c := s.rotations[c] + 1],
       dirty := s.dirty + {ActiveOf(s, c)},
       durable := s.durable - {File(c, next)})
  }

  /** A rotation whose new file could not be made. */
  function RotationFailed(s: State, c: nat): State
    requires c < |s.catalogs| && |s.catalogs[c]| > 0
  {
    s.(dirty := s.dirty + {ActiveOf(s, c)}, integrity := Some(FileOpenFailed))
  }

  /** The table of one version replaced; its contents are in memory until a sync. */
  function Written(s: State, f: File, t: Table): State {
    s.(files := s.files[f := t], durable := s.durable - {f})
  }

  lemma CatalogGrows(versions: seq<nat>, highest: nat)
    requires CatalogOk(versions, highest)
    ensures CatalogOk(versions + [highest + 1], highest + 1)
  {
    assert forall i :: 0 <= i < |versions| ==> versions[i] in versions;
  }

  lemma NamedWithOneMore(files: Files, catalogs: seq<seq<nat>>, c: nat, next: nat)
    requires Named(files, catalogs) && c < |catalogs|
    ensures Named(files[File(c, next) := map[]], catalogs[c := catalogs[c] + [next]])
  {
    var more, grown := files[File(c, next) := map[]], catalogs[c := catalogs[c] + [next]];
    forall f ensures f in more <==> f.cls < |grown| && f.version in grown[f.cls] {
      assert f in files <==> f.cls < |catalogs| && f.version in catalogs[f.cls];
    }
  }

  lemma RotatedIsShaped(s: State, c: nat)
    requires Shaped(s) && c < |s.catalogs|
    ensures Shaped(Rotated(s, c)) && File(c, s.highest[c] + 1) !in s.files
    ensures ActiveOf(Rotated(s, c), c) == File(c, s.highest[c] + 1)
  {
    assert CatalogOk(s.catalogs[c], s.highest[c]);
    CatalogGrows(s.catalogs[c], s.highest[c]);
    NamedWithOneMore(s.files, s.catalogs, c, s.highest[c] + 1);
    ActiveIsThere(s, c);
  }

  lemma RotatedIsCounted(s: State, c: nat)
    requires Shaped(s) && c < |s.catalogs| && Counted(s)
    ensures Counted(Rotated(s, c))
  {
    RotatedIsShaped(s, c);
    WeightAdd(s.files, File(c, s.highest[c] + 1), map[]);
  }

  lemma RotatedIsRegistered(s: State, c: nat)
    requires Shaped(s) && c < |s.catalogs| && Registered(s)
    ensures Shaped(Rotated(s, c)) && Registered(Rotated(s, c))
  {
    RotatedIsShaped(s, c);
    var r := Rotated(s, c);
    forall f | f in r.files && f !in r.durable ensures f in r.dirty || IsActive(r, f) {
      if f != File(c, s.highest[c] + 1) {
        assert f in s.files && f !in s.durable;
        assert f.cls != c ==> r.catalogs[f.cls] == s.catalogs[f.cls];
      }
    }
  }

  // ------------------------------------------------------------------
  // Insertion
  // ------------------------------------------------------------------

  /** What an `emplace` that failed left of the map. */
  function Left(before: Table, e: Emplace): Table {
    if e.Damages? then e.after else before
  }

  /** Whether `classify_post_exception` sees that the map changed. */
  predicate Detected(before: Table, e: Emplace, key: Key) {
    Mutated(before, Left(before, e), e.Damages? && e.reshaped, key)
  }

  /** The state after a failed `emplace`, before anybody decides what it means. */
  function AfterFailure(s: State, f: File, e: Emplace): State
    requires f in s.files
  {
    if e.Damages? then Written(s, f, e.after) else s
  }

  function Put(s: State, f: File, key: Key, entry: Entry): State
    requires f in s.files
  {
    Written(s, f, s.files[f][key := entry]).(count := s.count + 1)
  }

  /** One `emplace` and what is made of it. `InsufficientSpace`: it threw and the map is intact. */
  ghost function Tried(s: State, c: nat, key: Key, entry: Entry, e: Emplace): (State, Result<bool>)
    requires Shaped(s) && c < |s.catalogs|
  {
    ActiveIsThere(s, c);
    var f := ActiveOf(s, c);
    if e.Works? then
      if key in s.files[f] then (s, Ok(false)) else (Put(s, f, key, entry), Ok(true))
    else if Detected(s.files[f], e, key) then
      (AfterFailure(s, f, e).(integrity := Some(EntryCorrupt)), Err(EntryCorrupt))
    else
      (AfterFailure(s, f, e), Err(InsufficientSpace))
  }

  lemma TriedIsShaped(s: State, c: nat, key: Key, entry: Entry, e: Emplace)
    requires Shaped(s) && c < |s.catalogs|
    ensures Shaped(Tried(s, c, key, entry, e).0)
  {
    ActiveIsThere(s, c);
  }

  /** One attempt and, when it left the map intact, one more on a new generation. */
  ghost function TriedTwice(s: State, c: nat, key: Key, entry: Entry, luck: InsertLuck): (State, Result<bool>)
    requires Shaped(s) && c < |s.catalogs|
  {
    var (s1, r1) := Tried(s, c, key, entry, luck.first);
    TriedIsShaped(s, c, key, entry, luck.first);
    if r1 != Err(InsufficientSpace) then (s1, r1)
    else if luck.capacityFails then (RotationFailed(s1, c), Err(FileOpenFailed))
    else
      RotatedIsShaped(s1, c);
      Tried(Rotated(s1, c), c, key, entry, luck.second)
  }

  /** `insert_in_index`: what it leaves and what it answers, for every behaviour of the allocator. */
  ghost function Inserted(s: State, c: nat, key: Key, entry: Entry, luck: InsertLuck): (State, Result<bool>)
    requires Shaped(s) && c < |s.catalogs|
  {
    ActiveIsThere(s, c);
    if !luck.guardRefuses then TriedTwice(s, c, key, entry, luck)
    else if key in s.files[ActiveOf(s, c)] then (s, Ok(false))
    else if luck.preventiveFails then (RotationFailed(s, c), Err(FileOpenFailed))
    else
      RotatedIsShaped(s, c);
      TriedTwice(Rotated(s, c), c, key, entry, luck)
  }
}
