/**
  What an insertion promises, for every behaviour of the allocator.
*/
module Insertion {
  import opened Basics
  import opened StoreState

  ghost predicate Stores(files: Files, f: File, k: Key) {
    f in files && k in files[f]
  }

  ghost predicate SameEntries(a: Files, b: Files) {
    forall f, k :: (Stores(a, f, k) <==> Stores(b, f, k)) && (Stores(a, f, k) ==> a[f][k] == b[f][k])
  }

  /** Exactly one entry more: `key`, in version `at`. */
  ghost predicate Gains(a: Files, b: Files, at: File, key: Key, entry: Entry) {
    && !Stores(a, at, key) && Stores(b, at, key) && b[at][key] == entry
    && forall f, k :: !(f == at && k == key) ==> (Stores(a, f, k) <==> Stores(b, f, k)) && (Stores(a, f, k) ==> a[f][k] == b[f][k])
  }

  /** `n` generations more in class `c`, and nothing else in any catalogue. */
  ghost predicate Grew(s: State, s2: State, c: nat, n: nat)
  {
    && |s.catalogs| == |s.rotations| == |s.highest| == |s2.catalogs| == |s2.rotations| == |s2.highest|
    && c < |s.catalogs|
    && s.catalogs[c] <= s2.catalogs[c] && |s2.catalogs[c]| == |s.catalogs[c]| + n
    && s2.rotations[c] == s.rotations[c] + n && s2.highest[c] == s.highest[c] + n
    && s2.catalogs[c := s.catalogs[c]] == s.catalogs && s2.rotations[c := s.rotations[c]] == s.rotations
    && s2.highest[c := s.highest[c]] == s.highest
    && s2.cleanup == s.cleanup
  }

  /** What `classify_post_exception` cannot see: the same size, the same shape, the key absent, and yet
      not the same entries. */
  predicate Missed(before: Table, e: Emplace, key: Key) {
    e.Damages? && |e.after| == |before| && !e.reshaped && key !in e.after && e.after != before
  }

  ghost predicate Scars(s: State, c: nat, key: Key, luck: InsertLuck)
    requires Shaped(s) && c < |s.catalogs|
  {
    ActiveIsThere(s, c);
    !luck.guardRefuses && Missed(s.files[ActiveOf(s, c)], luck.first, key)
  }

  lemma RotatedSame(s: State, c: nat)
    requires Shaped(s) && c < |s.catalogs|
    ensures Shaped(Rotated(s, c)) && SameEntries(s.files, Rotated(s, c).files) && Grew(s, Rotated(s, c), c, 1)
    ensures ActiveOf(Rotated(s, c), c) in Rotated(s, c).files && Rotated(s, c).files[ActiveOf(Rotated(s, c), c)] == map[]
  {
    RotatedIsShaped(s, c);
  }

  lemma TriedMeans(s: State, c: nat, key: Key, entry: Entry, e: Emplace, s2: State, r: Result<bool>)
    requires Shaped(s) && c < |s.catalogs| && (s2, r) == Tried(s, c, key, entry, e)
    ensures Shaped(s2) && Grew(s, s2, c, 0) && ActiveOf(s, c) in s.files
    ensures r == Ok(true) ==> Gains(s.files, s2.files, ActiveOf(s2, c), key, entry) && s2.count == s.count + 1
    ensures r == Ok(false) ==> s2 == s && Stores(s.files, ActiveOf(s, c), key)
    ensures r != Ok(true) ==> s2.count == s.count
    ensures r != Err(EntryCorrupt) ==> s2.integrity == s.integrity
    ensures r == Err(EntryCorrupt) ==> s2.integrity == Some(EntryCorrupt)
    ensures r.Err? ==> r.error == InsufficientSpace || r.error == EntryCorrupt
    ensures r == Err(InsufficientSpace) ==>
              (SameEntries(s.files, s2.files) <==> (e.Damages? ==> e.after == s.files[ActiveOf(s, c)]))
    ensures s.files[ActiveOf(s, c)] == map[] && r == Err(InsufficientSpace) ==> SameEntries(s.files, s2.files)
  {
    TriedIsShaped(s, c, key, entry, e);
    TriedFields(s, c, key, entry, e, s2, r);
    TriedEntries(s, c, key, entry, e, s2, r);
  }

  lemma TriedFields(s: State, c: nat, key: Key, entry: Entry, e: Emplace, s2: State, r: Result<bool>)
    requires Shaped(s) && c < |s.catalogs| && (s2, r) == Tried(s, c, key, entry, e)
    ensures Grew(s, s2, c, 0) && (r == Ok(false) ==> s2 == s)
    ensures s2.count == s.count + (if r == Ok(true) then 1 else 0)
    ensures s2.integrity == if r == Err(EntryCorrupt) then Some(EntryCorrupt) else s.integrity
    ensures r.Err? ==> r.error == InsufficientSpace || r.error == EntryCorrupt
  {
    ActiveIsThere(s, c);
  }

  lemma TriedEntries(s: State, c: nat, key: Key, entry: Entry, e: Emplace, s2: State, r: Result<bool>)
    requires Shaped(s) && c < |s.catalogs| && (s2, r) == Tried(s, c, key, entry, e)
    ensures ActiveOf(s, c) in s.files && |s2.catalogs| == |s.catalogs| && s2.catalogs == s.catalogs
    ensures r == Ok(true) ==> Gains(s.files, s2.files, ActiveOf(s, c), key, entry)
    ensures r == Ok(false) ==> Stores(s.files, ActiveOf(s, c), key)
    ensures r == Err(InsufficientSpace) ==>
              (SameEntries(s.files, s2.files) <==> (e.Damages? ==> e.after == s.files[ActiveOf(s, c)]))
    ensures s.files[ActiveOf(s, c)] == map[] && r == Err(InsufficientSpace) ==> SameEntries(s.files, s2.files)
  {
    ActiveIsThere(s, c);
    if r == Err(InsufficientSpace) && e.Damages? { SameTableSameEntries(s.files, ActiveOf(s, c), e.after); }
  }

  lemma SameTableSameEntries(files: Files, f: File, t: Table)
    requires f in files
    ensures SameEntries(files, files[f := t]) <==> t == files[f]
    ensures files[f] == map[] && |t| == 0 ==> t == files[f]
  {
    var next := files[f := t];
    if SameEntries(files, next) {
      forall k ensures k in t <==> k in files[f] { assert Stores(files, f, k) <==> Stores(next, f, k); }
      forall k | k in t ensures t[k] == files[f][k] { assert Stores(files, f, k); }
      assert t == files[f];
    }
  }

  /** What an answer says of the entries, with `n` generations made on the way and `scarred` when a
      failure nobody saw changed the map. */
  ghost predicate Answered(s: State, s2: State, c: nat, key: Key, entry: Entry, r: Result<bool>, n: nat, scarred: bool) {
    && Shaped(s) && Shaped(s2) && c < |s.catalogs| == |s2.catalogs|
    && Grew(s, s2, c, n)
    && (r == Ok(true) ==> s2.integrity == s.integrity && s2.count == s.count + 1)
    && (r == Ok(true) && !scarred ==> Gains(s.files, s2.files, ActiveOf(s2, c), key, entry))
    && (r == Ok(false) ==> s2 == s && n == 0 && Stores(s.files, ActiveOf(s, c), key))
    && (r != Ok(true) ==> s2.count == s.count)
    && (r.Err? && s2.integrity == s.integrity ==> r.error == InsufficientSpace && n > 0)
    && (r.Err? && r.error != EntryCorrupt ==> (SameEntries(s.files, s2.files) <==> !scarred))
    && (r.Err? && s2.integrity != s.integrity ==> s2.integrity == Some(r.error))
  }

  lemma SameTrans(a: Files, b: Files, d: Files)
    requires SameEntries(a, b)
    ensures SameEntries(a, d) <==> SameEntries(b, d)
  {
    if SameEntries(a, d) {
      forall f, k ensures (Stores(b, f, k) <==> Stores(d, f, k)) && (Stores(b, f, k) ==> b[f][k] == d[f][k]) {
        assert Stores(a, f, k) <==> Stores(b, f, k);
      }
    }
    if SameEntries(b, d) {
      forall f, k ensures (Stores(a, f, k) <==> Stores(d, f, k)) && (Stores(a, f, k) ==> a[f][k] == d[f][k]) {
        assert Stores(a, f, k) <==> Stores(b, f, k);
      }
    }
  }

  lemma GainsAfterSame(a: Files, b: Files, d: Files, at: File, key: Key, entry: Entry)
    requires SameEntries(a, b) && Gains(b, d, at, key, entry)
    ensures Gains(a, d, at, key, entry)
  {
    assert Stores(a, at, key) <==> Stores(b, at, key);
    forall f, k | !(f == at && k == key)
      ensures (Stores(a, f, k) <==> Stores(d, f, k)) && (Stores(a, f, k) ==> a[f][k] == d[f][k])
    {
      assert Stores(a, f, k) <==> Stores(b, f, k);
    }
  }

  lemma SameBack(a: Files, b: Files)
    requires SameEntries(a, b)
    ensures SameEntries(b, a)
  {
  }

  lemma SameOn(a: Files, b: Files, d: Files)
    requires SameEntries(b, d)
    ensures SameEntries(a, b) <==> SameEntries(a, d)
  {
    if SameEntries(a, b) { SameTrans(a, b, d); }
    if SameEntries(a, d) {
      SameBack(b, d);
      SameBack(a, d);
      SameTrans(d, a, b);
      assert SameEntries(a, b);
    }
  }

  lemma GrewTwice(s: State, s1: State, s2: State, c: nat, m: nat, n: nat)
    requires Shaped(s) && Shaped(s1) && Shaped(s2) && c < |s.catalogs| == |s1.catalogs| == |s2.catalogs|
    requires Grew(s, s1, c, m) && Grew(s1, s2, c, n)
    ensures Grew(s, s2, c, m + n)
  {
    assert s2.catalogs[c := s.catalogs[c]] == s.catalogs;
    assert s2.rotations[c := s.rotations[c]] == s.rotations;
    assert s2.highest[c := s.highest[c]] == s.highest;
  }

  /** The state between two attempts: the first left the map looking intact. */
  ghost predicate Between(s: State, s1: State, c: nat, scarred: bool) {
    && Shaped(s) && Shaped(s1) && c < |s.catalogs| && Grew(s, s1, c, 0)
    && s.integrity.None? && s1.integrity.None? && s1.count == s.count
    && (SameEntries(s.files, s1.files) <==> !scarred)
  }

  lemma RetryMeans(s: State, s1: State, c: nat, key: Key, entry: Entry, e: Emplace, scarred: bool, s2: State, r: Result<bool>)
    requires Between(s, s1, c, scarred) && Shaped(Rotated(s1, c)) && (s2, r) == Tried(Rotated(s1, c), c, key, entry, e)
    ensures Answered(s, s2, c, key, entry, r, 1, scarred)
  {
    RotatedSame(s1, c);
    var m := Rotated(s1, c);
    TriedMeans(m, c, key, entry, e, s2, r);
    GrewTwice(s, s1, m, c, 0, 1);
    GrewTwice(s, m, s2, c, 1, 0);
    SameOn(s.files, s1.files, m.files);
    if r == Ok(true) && !scarred { GainsAfterSame(s.files, m.files, s2.files, ActiveOf(s2, c), key, entry); }
    if r == Err(InsufficientSpace) { SameOn(s.files, m.files, s2.files); }
  }

  lemma TriedTwiceMeans(s: State, c: nat, key: Key, entry: Entry, luck: InsertLuck, s2: State, r: Result<bool>) returns (n: nat)
    requires Shaped(s) && c < |s.catalogs| && s.integrity.None? && ActiveOf(s, c) in s.files
    requires (s2, r) == TriedTwice(s, c, key, entry, luck)
    ensures n <= 1 && Answered(s, s2, c, key, entry, r, n, Missed(s.files[ActiveOf(s, c)], luck.first, key))
  {
    var (s1, r1) := Tried(s, c, key, entry, luck.first);
    TriedMeans(s, c, key, entry, luck.first, s1, r1);
    n := 0;
    if r1 == Err(InsufficientSpace) && !luck.capacityFails {
      RotatedIsShaped(s1, c);
      RetryMeans(s, s1, c, key, entry, luck.second, Missed(s.files[ActiveOf(s, c)], luck.first, key), s2, r);
      n := 1;
    } else {
      OnceMeans(s, s1, c, key, entry, luck, r1, s2, r);
    }
  }

  /** No retry: the first attempt settled it, or the rotation after it failed. */
  lemma OnceMeans(s: State, s1: State, c: nat, key: Key, entry: Entry, luck: InsertLuck, r1: Result<bool>, s2: State, r: Result<bool>)
    requires Shaped(s) && c < |s.catalogs| && s.integrity.None? && ActiveOf(s, c) in s.files
    requires (s1, r1) == Tried(s, c, key, entry, luck.first) && (r1 == Err(InsufficientSpace) ==> luck.capacityFails)
    requires (s2, r) == if r1 == Err(InsufficientSpace) then (RotationFailed(s1, c), Err(FileOpenFailed)) else (s1, r1)
    ensures Answered(s, s2, c, key, entry, r, 0, Missed(s.files[ActiveOf(s, c)], luck.first, key))
  {
    TriedMeans(s, c, key, entry, luck.first, s1, r1);
  }

  /** On an empty map every change is seen. */
  lemma EmptyHidesNothing(e: Emplace, key: Key)
    ensures !Missed(map[], e, key)
  {
  }

  lemma AfterRotationMeans(s: State, c: nat, key: Key, entry: Entry, luck: InsertLuck, s2: State, r: Result<bool>) returns (n: nat)
    requires Shaped(s) && c < |s.catalogs| && s.integrity.None? && Shaped(Rotated(s, c))
    requires (s2, r) == TriedTwice(Rotated(s, c), c, key, entry, luck)
    ensures n <= 2 && Answered(s, s2, c, key, entry, r, n, false)
  {
    RotatedSame(s, c);
    var m := Rotated(s, c);
    var k := TriedTwiceMeans(m, c, key, entry, luck, s2, r);
    n := k + 1;
    EmptyHidesNothing(luck.first, key);
    AnsweredBefore(s, m, s2, c, key, entry, r, k, false);
  }

  /** An answer on a new generation, told from before the rotation. */
  lemma AnsweredBefore(s: State, m: State, s2: State, c: nat, key: Key, entry: Entry, r: Result<bool>, n: nat, scarred: bool)
    requires Shaped(s) && c < |s.catalogs| && Shaped(m) && m == Rotated(s, c) && SameEntries(s.files, m.files) && Grew(s, m, c, 1)
    requires ActiveOf(m, c) in m.files && m.files[ActiveOf(m, c)] == map[]
    requires Answered(m, s2, c, key, entry, r, n, scarred)
    requires s.integrity.None?
    ensures r != Err(EntryCorrupt) && !scarred ==> Answered(s, s2, c, key, entry, r, n + 1, false)
    ensures r == Err(EntryCorrupt) ==> Answered(s, s2, c, key, entry, r, n + 1, false)
  {
    GrewTwice(s, m, s2, c, 1, n);
    SameTrans(s.files, m.files, s2.files);
    if r == Ok(true) && !scarred { GainsAfterSame(s.files, m.files, s2.files, ActiveOf(s2, c), key, entry); }
  }

  /** The insert state machine. `true`: exactly this entry more, in the version active on return.
      `false`: the key was in the active map and nothing changed. An error that latched nothing is
      `insufficient_space`, and left the stored entries as they were unless the first failure, on the map
      that was active, left another of the same size and shape without the key. At most two generations are
      made, each of them counted. */
  lemma InsertMeans(s: State, c: nat, key: Key, entry: Entry, luck: InsertLuck, s2: State, r: Result<bool>) returns (n: nat)
    requires Shaped(s) && c < |s.catalogs| && s.integrity.None?
    requires (s2, r) == Inserted(s, c, key, entry, luck)
    ensures n <= 2 && Answered(s, s2, c, key, entry, r, n, Scars(s, c, key, luck))
  {
    ActiveIsThere(s, c);
    n := 0;
    if !luck.guardRefuses {
      n := TriedTwiceMeans(s, c, key, entry, luck, s2, r);
    } else if key !in s.files[ActiveOf(s, c)] && !luck.preventiveFails {
      RotatedIsShaped(s, c);
      n := AfterRotationMeans(s, c, key, entry, luck, s2, r);
    }
  }

  /** The attempts an insertion makes: the map it first meets, and whether it meets one at all. */
  function FirstMap(s: State, c: nat, luck: InsertLuck): Table
    requires c < |s.catalogs| && |s.catalogs[c]| > 0 && ActiveOf(s, c) in s.files
  {
    if luck.guardRefuses then map[] else s.files[ActiveOf(s, c)]
  }

  predicate Attempts(s: State, c: nat, key: Key, luck: InsertLuck)
    requires c < |s.catalogs| && |s.catalogs[c]| > 0 && ActiveOf(s, c) in s.files
  {
    luck.guardRefuses ==> key !in s.files[ActiveOf(s, c)] && !luck.preventiveFails
  }

  /** A failed `emplace` after which the map shows no change: the same number of entries, the same shape, and not the key. */
  predicate Intact(before: Table, e: Emplace, key: Key) {
    match e
    case Works => false
    case Throws => key !in before
    case Damages(after, reshaped) => |after| == |before| && !reshaped && key !in after
  }

  /** How an insertion ends, as the caller sees it. */
  predicate Succeeds(s: State, c: nat, key: Key, luck: InsertLuck)
    requires c < |s.catalogs| && |s.catalogs[c]| > 0 && ActiveOf(s, c) in s.files
  {
    Attempts(s, c, key, luck)
    && if luck.first.Works? then key !in FirstMap(s, c, luck)
       else Intact(FirstMap(s, c, luck), luck.first, key) && !luck.capacityFails && luck.second.Works?
  }

  predicate Repeats(s: State, c: nat, key: Key, luck: InsertLuck)
    requires c < |s.catalogs| && |s.catalogs[c]| > 0 && ActiveOf(s, c) in s.files
  {
    key in s.files[ActiveOf(s, c)] && (luck.guardRefuses || luck.first.Works?)
  }

  /** No room: the attempt left its map intact, and so did the one retry on a new generation. */
  predicate LacksRoom(s: State, c: nat, key: Key, luck: InsertLuck)
    requires c < |s.catalogs| && |s.catalogs[c]| > 0 && ActiveOf(s, c) in s.files
  {
    Attempts(s, c, key, luck) && Intact(FirstMap(s, c, luck), luck.first, key) && !luck.capacityFails && Intact(map[], luck.second, key)
  }

  /** A rotation that was asked for could not be made. */
  predicate CannotRotate(s: State, c: nat, key: Key, luck: InsertLuck)
    requires c < |s.catalogs| && |s.catalogs[c]| > 0 && ActiveOf(s, c) in s.files
  {
    || (luck.guardRefuses && key !in s.files[ActiveOf(s, c)] && luck.preventiveFails)
    || (Attempts(s, c, key, luck) && Intact(FirstMap(s, c, luck), luck.first, key) && luck.capacityFails)
  }

  /** The generations an insertion makes: one the guard asks for, one after a failure nobody saw change the map. */
  function Generations(s: State, c: nat, key: Key, luck: InsertLuck): nat
    requires c < |s.catalogs| && |s.catalogs[c]| > 0 && ActiveOf(s, c) in s.files
  {
    if !Attempts(s, c, key, luck) then 0
    else (if luck.guardRefuses then 1 else 0)
         + (if Intact(FirstMap(s, c, luck), luck.first, key) && !luck.capacityFails then 1 else 0)
  }

  lemma TriedExactly(s: State, c: nat, key: Key, entry: Entry, e: Emplace)
    requires Shaped(s) && c < |s.catalogs| && ActiveOf(s, c) in s.files
    ensures var (s2, r) := Tried(s, c, key, entry, e);
            && r == (if e.Works? then Ok(key !in s.files[ActiveOf(s, c)])
                     else if Intact(s.files[ActiveOf(s, c)], e, key) then Err(InsufficientSpace) else Err(EntryCorrupt))
            && s2.catalogs == s.catalogs && s2.rotations == s.rotations && s2.highest == s.highest
            && (r == Ok(true) ==> ActiveOf(s2, c) in s2.files && key in s2.files[ActiveOf(s2, c)]
                                  && s2.files[ActiveOf(s2, c)][key] == entry)
  {
  }

  ghost predicate Landed(s2: State, c: nat, key: Key, entry: Entry) {
    && c < |s2.catalogs| && |s2.catalogs[c]| > 0 && ActiveOf(s2, c) in s2.files
    && key in s2.files[ActiveOf(s2, c)] && s2.files[ActiveOf(s2, c)][key] == entry
  }

  /** The two attempts, from a map that is looked at. */
  lemma TwiceExactly(s: State, c: nat, key: Key, entry: Entry, luck: InsertLuck)
    requires Shaped(s) && c < |s.catalogs| && ActiveOf(s, c) in s.files
    ensures var (s2, r) := TriedTwice(s, c, key, entry, luck);
            var before := s.files[ActiveOf(s, c)];
            && r == (if luck.first.Works? then Ok(key !in before)
                     else if !Intact(before, luck.first, key) then Err(EntryCorrupt)
                     else if luck.capacityFails then Err(FileOpenFailed)
                     else if luck.second.Works? then Ok(true)
                     else if Intact(map[], luck.second, key) then Err(InsufficientSpace) else Err(EntryCorrupt))
            && |s2.rotations| == |s.rotations|
            && s2.rotations[c] == s.rotations[c] + (if Intact(before, luck.first, key) && !luck.capacityFails then 1 else 0)
            && (r == Ok(true) ==> Landed(s2, c, key, entry))
  {
    var (s1, r1) := Tried(s, c, key, entry, luck.first);
    TriedExactly(s, c, key, entry, luck.first);
    TriedIsShaped(s, c, key, entry, luck.first);
    RotatedSame(s1, c);
    if r1 == Err(InsufficientSpace) && !luck.capacityFails {
      TriedExactly(Rotated(s1, c), c, key, entry, luck.second);
    }
  }

  /** What an insertion answers, from the key, the guard, the rotations and the attempts alone. `true` exactly when the
      key is absent from the map that is tried, every rotation asked for works, and the attempt works or, after a failure
      that left the map intact, the retry does. Each refusal has its own condition, exact as well, and every generation
      made is accounted for. */
  ghost predicate Answer(s: State, c: nat, key: Key, entry: Entry, luck: InsertLuck, s2: State, r: Result<bool>) {
    && c < |s.catalogs| && |s.catalogs[c]| > 0 && ActiveOf(s, c) in s.files && c < |s.rotations| == |s2.rotations|
    && (r == Ok(true) <==> Succeeds(s, c, key, luck))
    && (r == Ok(false) <==> Repeats(s, c, key, luck))
    && (r == Err(InsufficientSpace) <==> LacksRoom(s, c, key, luck))
    && (r == Err(FileOpenFailed) <==> CannotRotate(s, c, key, luck))
    && (r.Err? ==> r.error == InsufficientSpace || r.error == FileOpenFailed || r.error == EntryCorrupt)
    && (r == Ok(true) ==> Landed(s2, c, key, entry))
    && s2.rotations[c] == s.rotations[c] + Generations(s, c, key, luck)
  }

  lemma AnswersExactly(s: State, c: nat, key: Key, entry: Entry, luck: InsertLuck)
    requires Shaped(s) && c < |s.catalogs|
    ensures Answer(s, c, key, entry, luck, Inserted(s, c, key, entry, luck).0, Inserted(s, c, key, entry, luck).1)
  {
    ActiveIsThere(s, c);
    assert CatalogOk(s.catalogs[c], s.highest[c]);
    if !luck.guardRefuses {
      TwiceExactly(s, c, key, entry, luck);
    } else if key !in s.files[ActiveOf(s, c)] && !luck.preventiveFails {
      RotatedSame(s, c);
      TwiceExactly(Rotated(s, c), c, key, entry, luck);
    }
  }

  /** A map that was changed by a failed `emplace` is answered and latched `entry_corrupt` exactly when its
      size or its shape moved or the key is in it, at the first attempt or at the one retry. */
  lemma ChangesAreSeen(s: State, c: nat, key: Key, entry: Entry, luck: InsertLuck)
    requires Shaped(s) && c < |s.catalogs| && ActiveOf(s, c) in s.files && s.integrity.None?
    ensures var (s2, r) := Inserted(s, c, key, entry, luck);
            var before := FirstMap(s, c, luck);
            && (r == Err(EntryCorrupt) <==>
                 && Attempts(s, c, key, luck) && !luck.first.Works?
                 && (!Intact(before, luck.first, key)
                     || (!luck.capacityFails && !luck.second.Works? && !Intact(map[], luck.second, key))))
            && (r == Err(EntryCorrupt) ==> s2.integrity == Some(EntryCorrupt))
  {
    AnswersExactly(s, c, key, entry, luck);
    var (s2, r) := Inserted(s, c, key, entry, luck);
    var n := InsertMeans(s, c, key, entry, luck, s2, r);
  }

  /** `false` is the answer whenever the key is in the active map and `emplace` works, or the guard
      looked first. */
  lemma PresentKeysAreRefused(s: State, c: nat, key: Key, entry: Entry, luck: InsertLuck)
    requires Shaped(s) && c < |s.catalogs| && Stores(s.files, ActiveOf(s, c), key)
    ensures luck.guardRefuses || luck.first.Works? ==> Inserted(s, c, key, entry, luck) == (s, Ok(false))
    ensures Inserted(s, c, key, entry, luck).1 == Ok(false) || Inserted(s, c, key, entry, luck).1 == Err(EntryCorrupt)
            || luck.first.Damages?
  {
  }

  // ------------------------------------------------------------------
  // The two books an insertion keeps: the running total and the durability register
  // ------------------------------------------------------------------

  /** The total is right and every version that needs a flush is active or owed one. */
  ghost predicate Books(s: State) {
    Shaped(s) && Counted(s) && Registered(s)
  }

  lemma WrittenKeepsRegister(s: State, c: nat, t: Table)
    requires Shaped(s) && Registered(s) && c < |s.catalogs|
    ensures Shaped(Written(s, ActiveOf(s, c), t)) && Registered(Written(s, ActiveOf(s, c), t))
  {
    ActiveIsThere(s, c);
    var s2 := Written(s, ActiveOf(s, c), t);
    forall f | f in s2.files && f !in s2.durable ensures f in s2.dirty || IsActive(s2, f) {
      if f != ActiveOf(s, c) { assert f in s.files && f !in s.durable; }
    }
  }

  lemma OneMore(t: Table, key: Key, entry: Entry)
    requires key !in t
    ensures |t[key := entry]| == |t| + 1
  {
    assert t[key := entry].Keys == t.Keys + {key};
    assert |t[key := entry]| == |t[key := entry].Keys| && |t| == |t.Keys|;
  }

  lemma PutCounts(files: Files, f: File, key: Key, entry: Entry, t: Table)
    requires f in files && key !in files[f] && t == files[f][key := entry]
    ensures Weight(files[f := t]) == Weight(files) + 1
  {
    WeightSet(files, f, t);
    OneMore(files[f], key, entry);
  }

  lemma BooksWithCount(s: State, n: int)
    requires Shaped(s) && Registered(s) && Weight(s.files) == n
    ensures Books(s.(count := n))
  {
    CountIsApart(s, n);
  }

  lemma PutKeepsBooks(s: State, c: nat, key: Key, entry: Entry)
    requires Books(s) && c < |s.catalogs| && ActiveOf(s, c) in s.files && key !in s.files[ActiveOf(s, c)]
    ensures Books(Put(s, ActiveOf(s, c), key, entry))
  {
    var t: Table := s.files[ActiveOf(s, c)][key := entry];
    PutCounts(s.files, ActiveOf(s, c), key, entry, t);
    WrittenKeepsRegister(s, c, t);
    BooksWithCount(Written(s, ActiveOf(s, c), t), s.count + 1);
  }

  lemma CountIsApart(s: State, n: int)
    requires Shaped(s) && Registered(s)
    ensures Shaped(s.(count := n)) && Registered(s.(count := n))
  {
    forall f | f in s.files && f !in s.durable ensures f in s.dirty || IsActive(s.(count := n), f) {
      assert f in s.dirty || IsActive(s, f);
    }
  }

  lemma DamageKeepsBooks(s: State, c: nat, t: Table)
    requires Books(s) && c < |s.catalogs| && ActiveOf(s, c) in s.files
    ensures Shaped(Written(s, ActiveOf(s, c), t)) && Registered(Written(s, ActiveOf(s, c), t))
    ensures |t| == |s.files[ActiveOf(s, c)]| ==> Counted(Written(s, ActiveOf(s, c), t))
  {
    WrittenKeepsRegister(s, c, t);
    WeightSet(s.files, ActiveOf(s, c), t);
  }

  lemma TriedKeepsBooks(s: State, c: nat, key: Key, entry: Entry, e: Emplace, s2: State, r: Result<bool>)
    requires Books(s) && c < |s.catalogs| && (s2, r) == Tried(s, c, key, entry, e)
    ensures r != Err(EntryCorrupt) ==> Books(s2)
  {
    ActiveIsThere(s, c);
    if e.Works? {
      if key !in s.files[ActiveOf(s, c)] { PutKeepsBooks(s, c, key, entry); }
    } else if e.Damages? {
      DamageKeepsBooks(s, c, e.after);
    }
  }

  lemma RotatedKeepsBooks(s: State, c: nat)
    requires Books(s) && c < |s.catalogs|
    ensures Books(Rotated(s, c)) && Books(RotationFailed(s, c))
  {
    FailedRotationKeepsBooks(s, c);
    RotatedIsShaped(s, c);
    RotatedIsCounted(s, c);
    RotatedIsRegistered(s, c);
  }

  lemma FailedRotationKeepsBooks(s: State, c: nat)
    requires Books(s) && c < |s.catalogs|
    ensures Books(RotationFailed(s, c))
  {
    ActiveIsThere(s, c);
  }

  lemma TriedTwiceKeepsBooks(s: State, c: nat, key: Key, entry: Entry, luck: InsertLuck, s2: State, r: Result<bool>)
    requires Books(s) && c < |s.catalogs| && (s2, r) == TriedTwice(s, c, key, entry, luck)
    ensures r != Err(EntryCorrupt) ==> Books(s2)
  {
    var (s1, r1) := Tried(s, c, key, entry, luck.first);
    TriedKeepsBooks(s, c, key, entry, luck.first, s1, r1);
    if r1 == Err(InsufficientSpace) {
      TriedIsShaped(s, c, key, entry, luck.first);
      RotatedKeepsBooks(s1, c);
      if !luck.capacityFails { TriedKeepsBooks(Rotated(s1, c), c, key, entry, luck.second, s2, r); }
    }
  }

  /** Unless the map contradicted its guarantee and the instance latched for good. */
  lemma InsertKeepsBooks(s: State, c: nat, key: Key, entry: Entry, luck: InsertLuck, s2: State, r: Result<bool>)
    requires Books(s) && c < |s.catalogs| && (s2, r) == Inserted(s, c, key, entry, luck)
    ensures r != Err(EntryCorrupt) ==> Books(s2)
  {
    RotatedKeepsBooks(s, c);
    ActiveIsThere(s, c);
    if !luck.guardRefuses {
      TriedTwiceKeepsBooks(s, c, key, entry, luck, s2, r);
    } else if key !in s.files[ActiveOf(s, c)] && !luck.preventiveFails {
      TriedTwiceKeepsBooks(Rotated(s, c), c, key, entry, luck, s2, r);
    }
  }
}
