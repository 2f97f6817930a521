/**
  Opening a recovered directory (`configure_internal`): the catalogues are listed, every version
  of every class is opened and counted, and a class without one gets version zero.
*/
module Configuring {
  import opened Basics
  import opened Disk
  import opened Recovery
  import opened StoreState
  import opened Runs

  class Configuration {
    var views: seq<View>
    var catalogs: seq<seq<nat>>
    var files: Files
    var count: nat

    constructor (views: seq<View>)
      ensures this.views == views && catalogs == [] && files == map[] && count == 0
    {
      this.views, catalogs, files, count := views, [], map[], 0;
    }

    ghost predicate Sofar(c: nat, j: nat)
      reads this
    {
      CountedTo(views, catalogs, files, count, c, j)
    }

    /** Every class's catalogue is read before any file is opened. */
    method ListVersions(unlisted: set<nat>) returns (ok: bool)
      requires catalogs == []
      modifies this`catalogs
      ensures ok <==> forall c :: 0 <= c < |views| ==> c !in unlisted
      ensures ok ==> |catalogs| == |views| && forall c :: 0 <= c < |views| ==> catalogs[c] == Listed(DataVersions(views[c]))
    {
      var c := 0;
      while c < |views|
        invariant 0 <= c <= |views| && |catalogs| == c
        invariant forall d :: 0 <= d < c ==> d !in unlisted && catalogs[d] == Listed(DataVersions(views[d]))
      {
        if c in unlisted { return false; }
        catalogs := catalogs + [Listed(DataVersions(views[c]))];
        c := c + 1;
      }
      ok := true;
    }

    /** `create_container` on a class that has no version: an empty version zero. */
    method MakeZero(c: nat)
      requires c < |views| && Sofar(c, 0) && Length(catalogs, c) == 0
      modifies this`views, this`catalogs
      ensures views == old(views)[c := Started(old(views[c]))]
      ensures Sofar(c, Length(catalogs, c)) && Length(catalogs, c) > 0
    {
      NothingListed(views[c]);
      ZeroMade(views, catalogs, files, count, c);
      views := views[c := views[c][Data(0) := Rows(map[], None)]];
      catalogs := catalogs[c := [0]];
    }

    /** One class: given a version zero if it has none, unless its file cannot be made, and counted. */
    method LoadClass(c: nat, uncreatable: set<nat>, unreadable: set<File>) returns (r: Result<()>)
      requires c < |views| && Sofar(c, Length(catalogs, c))
      modifies this
      ensures |views| == |old(views)|
      ensures r.Ok? ==> views == old(views)[c := Started(old(views[c]))] && Sofar(c + 1, Length(catalogs, c + 1))
      ensures r.Ok? <==> ClassOpens(old(views[c]), c, uncreatable, unreadable)
      ensures r.Err? ==> ClassRefuses(old(views[c]), c, uncreatable, unreadable, r.error) && r.error != CatalogUnreadable
    {
      if |catalogs[c]| == 0 {
        NothingListed(views[c]);
        if c in uncreatable { return Err(FileOpenFailed); }
        MakeZero(c);
      } else {
        SomethingListed(views[c]);
        assert views == views[c := views[c]];
      }
      r := CountClass(c, unreadable);
      ghost var was, now, versions := old(views[c]), views[c], catalogs[c];
      BlockedMeans(was, now, versions, c, uncreatable, unreadable);
      if r.Err? { BarredMeans(was, now, versions, c, uncreatable, unreadable, r.error); }
    }

    /** A catalogued version of the class cannot be opened, or holds no map. */
    ghost predicate Blocked(c: nat, unreadable: set<File>)
      reads this`views, this`catalogs
    {
      c < |views| && c < |catalogs| && exists v :: v in catalogs[c] && Unopened(views[c], File(c, v), unreadable)
    }

    /** One version: opened, found to hold a map, and its entries added to the running total. */
    method Count(c: nat, j: nat, unreadable: set<File>) returns (r: Result<()>)
      requires j > 0 && Counting(c, j, unreadable)
      modifies this`files, this`count
      ensures r.Ok? ==> Counting(c, j - 1, unreadable)
      ensures r.Err? ==> Blocked(c, unreadable) && Bars(views[c], c, catalogs[c], j - 1, unreadable, r.error)
    {
      var f := File(c, catalogs[c][j - 1]);
      VersionIsThere(views, catalogs, c, j - 1);
      assert catalogs[c][j - 1] in catalogs[c];
      if f in unreadable { return Err(VersionUnreadable); }
      var content := views[c][Data(f.version)];
      if !content.Rows? { return Err(EntryCorrupt); }
      OneCounted(views, catalogs, files, count, c, j, content.table);
      files := files[f := content.table];
      count := count + |content.table|;
      r := Ok(());
    }

    /** Everything from the `j`-th version on has been opened and counted. */
    ghost predicate Counting(c: nat, j: nat, unreadable: set<File>)
      reads this
    {
      c < |views| && j <= Length(catalogs, c) && Sofar(c, j) && OpenedFrom(views[c], c, catalogs[c], j, unreadable)
    }

    method CountDown(c: nat, unreadable: set<File>) returns (r: Result<()>)
      requires Counting(c, Length(catalogs, c), unreadable)
      modifies this`files, this`count
      ensures r.Ok? ==> Counting(c, 0, unreadable)
      ensures r.Err? ==> Blocked(c, unreadable) && FirstBar(views[c], c, catalogs[c], unreadable, r.error)
    {
      r := Ok(());
      for j := |catalogs[c]| downto 0
        invariant r.Ok? && Counting(c, j, unreadable)
      {
        r := Count(c, j + 1, unreadable);
        if r.Err? { return; }
      }
    }

    /** The active version first, then the ones below it, highest first. */
    method CountClass(c: nat, unreadable: set<File>) returns (r: Result<()>)
      requires c < |views| && Sofar(c, Length(catalogs, c)) && Length(catalogs, c) > 0
      modifies this`files, this`count
      ensures r.Ok? ==> Sofar(c + 1, Length(catalogs, c + 1))
      ensures r.Ok? <==> !Blocked(c, unreadable)
      ensures r.Err? ==> FirstBar(views[c], c, catalogs[c], unreadable, r.error)
    {
      r := CountDown(c, unreadable);
      if r.Ok? {
        NoneBlocked(views[c], c, catalogs[c], unreadable);
        NextClass(views, catalogs, files, count, c);
      }
    }

    ghost predicate AllOpen(before: seq<View>, n: nat, uncreatable: set<nat>, unreadable: set<File>)
    {
      n <= |before| && forall d :: 0 <= d < n ==> ClassOpens(before[d], d, uncreatable, unreadable)
    }

    /** Class after class, stopping at the first that cannot be described. */
    method LoadClasses(uncreatable: set<nat>, unreadable: set<File>) returns (r: Result<()>)
      requires Sofar(0, Length(catalogs, 0))
      modifies this
      ensures |views| == |old(views)|
      ensures r.Ok? ==> Sofar(|views|, 0) && forall c :: 0 <= c < |views| ==> views[c] == Started(old(views)[c])
      ensures r.Ok? <==> AllOpen(old(views), |old(views)|, uncreatable, unreadable)
      ensures r.Err? ==> FirstRefusal(old(views), uncreatable, unreadable, r.error) && r.error != CatalogUnreadable
    {
      var c := 0;
      while c < |views|
        invariant 0 <= c <= |views| && Sofar(c, Length(catalogs, c)) && StartedTo(old(views), views, c)
        invariant AllOpen(old(views), c, uncreatable, unreadable)
      {
        StartedNext(old(views), views, c);
        var loaded := LoadClass(c, uncreatable, unreadable);
        if loaded.Err? { return loaded; }
        c := c + 1;
      }
      r := Ok(());
    }

    /**
      `configure_internal` after recovery. It succeeds if and only if every catalogue can be listed and every
      class opens. What it opens is the directory it was given, a class without a version started, and the
      running total is the number of entries in all of it.
    */
    method Configure(unlisted: set<nat>, uncreatable: set<nat>, unreadable: set<File>) returns (r: Result<State>)
      requires catalogs == [] && files == map[] && count == 0
      modifies this
      ensures |views| == |old(views)|
      ensures r.Ok? ==> Loaded(views, r.value) && forall c :: 0 <= c < |views| ==> views[c] == Started(old(views)[c])
      ensures r == Err(CatalogUnreadable) <==> exists c :: 0 <= c < |old(views)| && c in unlisted
      ensures r.Ok? <==> r != Err(CatalogUnreadable) && AllOpen(old(views), |old(views)|, uncreatable, unreadable)
      ensures r.Err? && r.error != CatalogUnreadable ==> FirstRefusal(old(views), uncreatable, unreadable, r.error)
      ensures r.Ok? ==> Unburdened(r.value)
    {
      var listed := ListVersions(unlisted);
      if !listed { return Err(CatalogUnreadable); }
      Nothing(views, catalogs);
      var loaded := LoadClasses(uncreatable, unreadable);
      if loaded.Err? { return Err(loaded.error); }
      var s := Fresh(files, catalogs, count);
      AllLoaded(views, catalogs, files, count);
      r := Ok(s);
    }
  }

  /** An instance that has just been opened: nothing owed, nothing latched. */
  function Fresh(files: Files, catalogs: seq<seq<nat>>, count: nat): State {
    State(files, catalogs, seq(|catalogs|, d requires 0 <= d < |catalogs| => HighestOf(catalogs[d])),
          seq(|catalogs|, _ => 0), count, {}, {}, None, false)
  }

  function HighestOf(versions: seq<nat>): nat { if versions == [] then 0 else versions[|versions| - 1] }

  /** A class without a version can be given one; a class with some has each opening and holding a map. */
  ghost predicate ClassOpens(view: View, c: nat, uncreatable: set<nat>, unreadable: set<File>) {
    if DataVersions(view) == {} then c !in uncreatable && File(c, 0) !in unreadable
    else forall v :: v in DataVersions(view) ==> !Unopened(view, File(c, v), unreadable)
  }

  /** The `i`-th version of a class is the one that stops it, with this error: the ones above it open. */
  ghost predicate Bars(view: View, c: nat, versions: seq<nat>, i: nat, unreadable: set<File>, e: Error) {
    && i < |versions| && Unopened(view, File(c, versions[i]), unreadable) && OpenedFrom(view, c, versions, i + 1, unreadable)
    && e == if File(c, versions[i]) in unreadable then VersionUnreadable else EntryCorrupt
  }

  ghost predicate FirstBar(view: View, c: nat, versions: seq<nat>, unreadable: set<File>, e: Error) {
    exists i: nat :: Bars(view, c, versions, i, unreadable, e)
  }

  /** Why a class does not open: the version zero it lacks cannot be made, or its highest version that stops it. */
  ghost predicate ClassRefuses(view: View, c: nat, uncreatable: set<nat>, unreadable: set<File>, e: Error) {
    if DataVersions(view) == {} && c in uncreatable then e == FileOpenFailed
    else FirstBar(Started(view), c, Listed(DataVersions(Started(view))), unreadable, e)
  }

  /** The first class that does not open gives the error. */
  ghost predicate FirstRefusal(views: seq<View>, uncreatable: set<nat>, unreadable: set<File>, e: Error) {
    exists c: nat :: c < |views| && (forall d :: 0 <= d < c ==> ClassOpens(views[d], d, uncreatable, unreadable))
                     && ClassRefuses(views[c], c, uncreatable, unreadable, e)
  }

  /** An instance just opened owes nothing, is latched by nothing, has rotated nothing and has issued no identity beyond
      the last of each class. */
  ghost predicate Unburdened(s: State) {
    && s.dirty == {} && s.durable == {} && s.integrity.None? && !s.cleanup
    && (forall c :: 0 <= c < |s.rotations| ==> s.rotations[c] == 0)
    && |s.highest| == |s.catalogs| && forall c :: 0 <= c < |s.catalogs| ==> |s.catalogs[c]| > 0 && s.highest[c] == s.catalogs[c][|s.catalogs[c]| - 1]
  }

  /** The versions from the `j`-th on open. */
  ghost predicate OpenedFrom(view: View, c: nat, versions: seq<nat>, j: nat, unreadable: set<File>) {
    forall i :: j <= i < |versions| ==> !Unopened(view, File(c, versions[i]), unreadable)
  }

  /** The classes before `c` have been started, and the others left as they were. */
  ghost predicate StartedTo(before: seq<View>, now: seq<View>, c: nat) {
    |now| == |before| && forall d :: 0 <= d < |now| ==> now[d] == if d < c then Started(before[d]) else before[d]
  }

  lemma StartedNext(before: seq<View>, now: seq<View>, c: nat)
    requires StartedTo(before, now, c) && c < |now|
    ensures now[c] == before[c] && StartedTo(before, now[c := Started(now[c])], c + 1)
  {
  }

  lemma NoneBlocked(view: View, c: nat, versions: seq<nat>, unreadable: set<File>)
    requires OpenedFrom(view, c, versions, 0, unreadable)
    ensures forall v :: v in versions ==> !Unopened(view, File(c, v), unreadable)
  {
  }

  lemma BlockedMeans(view: View, now: View, versions: seq<nat>, c: nat, uncreatable: set<nat>, unreadable: set<File>)
    requires now == Started(view) && (forall v :: v in versions <==> v in DataVersions(now))
    requires DataVersions(view) == {} ==> c !in uncreatable
    ensures (exists v :: v in versions && Unopened(now, File(c, v), unreadable)) <==> !ClassOpens(view, c, uncreatable, unreadable)
  {
    if DataVersions(view) == {} {
      OnlyZero(view);
      assert DataVersions(now) == {0};
      assert 0 in versions;
    }
  }

  lemma BarredMeans(view: View, now: View, versions: seq<nat>, c: nat, uncreatable: set<nat>, unreadable: set<File>, e: Error)
    requires now == Started(view) && versions == Listed(DataVersions(now)) && FirstBar(now, c, versions, unreadable, e)
    requires DataVersions(view) == {} ==> c !in uncreatable
    ensures ClassRefuses(view, c, uncreatable, unreadable, e) && e != CatalogUnreadable
  {
  }

  function Length(catalogs: seq<seq<nat>>, c: nat): nat { if c < |catalogs| then |catalogs[c]| else 0 }

  ghost predicate Unopened(view: View, f: File, unreadable: set<File>) {
    f in unreadable || (Data(f.version) in view && !view[Data(f.version)].Rows?)
  }

  ghost predicate Catalogued(views: seq<View>, catalogs: seq<seq<nat>>, c: nat) {
    && |catalogs| == |views| && c <= |views|
    && (forall d :: 0 <= d < |views| ==> catalogs[d] == Listed(DataVersions(views[d])))
    && (forall d :: 0 <= d < c ==> |catalogs[d]| > 0)
  }

  /** A version that has been counted. */
  ghost predicate Past(catalogs: seq<seq<nat>>, c: nat, j: nat, f: File) {
    f.cls < |catalogs| && if f.cls == c then InSuffix(catalogs, c, j, f.version) else f.cls < c && f.version in catalogs[f.cls]
  }

  /** What has been counted is what the directory holds, for the classes before `c` and the versions of `c` from the `j`-th on. */
  ghost predicate CountedTo(views: seq<View>, catalogs: seq<seq<nat>>, files: Files, count: nat, c: nat, j: nat) {
    && Catalogued(views, catalogs, c) && count == Weight(files)
    && Domain(files, catalogs, c, j)
    && Truthful(files, views)
  }

  ghost predicate Domain(files: Files, catalogs: seq<seq<nat>>, c: nat, j: nat) {
    forall f :: f in files <==> Past(catalogs, c, j, f)
  }

  lemma DomainOneMore(files: Files, catalogs: seq<seq<nat>>, c: nat, j: nat, t: Table)
    requires Domain(files, catalogs, c, j) && c < |catalogs| && 0 < j <= |catalogs[c]| && Ascending(catalogs[c])
    ensures File(c, catalogs[c][j - 1]) !in files
    ensures Domain(files[File(c, catalogs[c][j - 1]) := t], catalogs, c, j - 1)
  {
    var f := File(c, catalogs[c][j - 1]);
    NotYet(catalogs[c], j - 1);
    assert !Past(catalogs, c, j, f);
    SuffixGrows(catalogs, c, j);
    forall g ensures Past(catalogs, c, j - 1, g) <==> Past(catalogs, c, j, g) || g == f {
    }
  }

  lemma DomainFromZero(files: Files, catalogs: seq<seq<nat>>, c: nat)
    requires Domain(files, catalogs, c, 0) && c < |catalogs| && |catalogs[c]| == 0
    ensures Domain(files, catalogs[c := [0]], c, 1)
    ensures forall f :: f in files ==> f.cls != c
  {
    var more := catalogs[c := [0]];
    forall f ensures Past(more, c, 1, f) <==> Past(catalogs, c, 0, f) {
    }
    forall f | f in files ensures f.cls != c { assert Past(catalogs, c, 0, f); }
  }

  lemma TruthfulElsewhere(files: Files, views: seq<View>, c: nat, view: View)
    requires Truthful(files, views) && c < |views| && forall f :: f in files ==> f.cls != c
    ensures Truthful(files, views[c := view])
  {
  }

  lemma VersionIsThere(views: seq<View>, catalogs: seq<seq<nat>>, c: nat, i: nat)
    requires Catalogued(views, catalogs, c) && c < |views| && i < |catalogs[c]|
    ensures Data(catalogs[c][i]) in views[c]
  {
    assert catalogs[c][i] in catalogs[c];
    assert catalogs[c][i] in DataVersions(views[c]);
  }

  lemma OneCounted(views: seq<View>, catalogs: seq<seq<nat>>, files: Files, count: nat, c: nat, j: nat, t: Table)
    requires CountedTo(views, catalogs, files, count, c, j) && c < |views| && 0 < j <= |catalogs[c]|
    requires Holding(views[c], catalogs[c][j - 1], t)
    ensures CountedTo(views, catalogs, files[File(c, catalogs[c][j - 1]) := t], count + |t|, c, j - 1)
  {
    DomainOneMore(files, catalogs, c, j, t);
    WeightAdd(files, File(c, catalogs[c][j - 1]), t);
  }

  lemma ZeroMade(views: seq<View>, catalogs: seq<seq<nat>>, files: Files, count: nat, c: nat)
    requires CountedTo(views, catalogs, files, count, c, 0) && c < |views| && |catalogs[c]| == 0
    requires DataVersions(views[c]) == {}
    ensures CountedTo(views[c := views[c][Data(0) := Rows(map[], None)]], catalogs[c := [0]], files, count, c, 1)
  {
    var started, more := views[c := views[c][Data(0) := Rows(map[], None)]], catalogs[c := [0]];
    OnlyZero(views[c]);
    assert Catalogued(started, more, c);
    DomainFromZero(files, catalogs, c);
    TruthfulElsewhere(files, views, c, views[c][Data(0) := Rows(map[], None)]);
  }

  lemma NextClass(views: seq<View>, catalogs: seq<seq<nat>>, files: Files, count: nat, c: nat)
    requires CountedTo(views, catalogs, files, count, c, 0) && c < |views| && |catalogs[c]| > 0
    ensures CountedTo(views, catalogs, files, count, c + 1, Length(catalogs, c + 1))
  {
    forall f ensures Past(catalogs, c, 0, f) <==> Past(catalogs, c + 1, Length(catalogs, c + 1), f) {
      if f.cls == c {
        assert InSuffix(catalogs, c, 0, f.version) <==> f.version in catalogs[c];
      }
    }
  }

  ghost predicate InSuffix(catalogs: seq<seq<nat>>, c: nat, j: nat, v: nat) {
    c < |catalogs| && exists i :: j <= i < |catalogs[c]| && catalogs[c][i] == v
  }

  ghost predicate Truthful(files: Files, views: seq<View>) {
    forall f :: f in files ==> f.cls < |views| && Holding(views[f.cls], f.version, files[f])
  }

  ghost predicate Holding(view: View, v: nat, t: Table) {
    Data(v) in view && view[Data(v)].Rows? && view[Data(v)].table == t
  }

  lemma NothingListed(view: View)
    requires |Listed(DataVersions(view))| == 0
    ensures DataVersions(view) == {}
  {
  }

  lemma SomethingListed(view: View)
    requires |Listed(DataVersions(view))| > 0
    ensures Started(view) == view
  {
  }

  lemma OnlyZero(view: View)
    requires DataVersions(view) == {}
    ensures Listed(DataVersions(view[Data(0) := Rows(map[], None)])) == [0]
  {
    var now := view[Data(0) := Rows(map[], None)];
    assert forall v :: Data(v) in view ==> v in DataVersions(view);
    assert DataVersions(now) == {0};
    assert |Listed({0})| == 1 && Listed({0})[0] in Listed({0});
  }

  lemma NotYet(versions: seq<nat>, i: nat)
    requires Ascending(versions) && i < |versions|
    ensures forall k :: i < k < |versions| ==> versions[k] != versions[i]
  {
  }

  lemma SuffixGrows(catalogs: seq<seq<nat>>, c: nat, j: nat)
    requires c < |catalogs| && 0 < j <= |catalogs[c]|
    ensures forall v :: InSuffix(catalogs, c, j - 1, v) <==> InSuffix(catalogs, c, j, v) || v == catalogs[c][j - 1]
  {
    assert InSuffix(catalogs, c, j - 1, catalogs[c][j - 1]);
  }

  lemma Nothing(views: seq<View>, catalogs: seq<seq<nat>>)
    requires |catalogs| == |views| && forall c :: 0 <= c < |views| ==> catalogs[c] == Listed(DataVersions(views[c]))
    ensures CountedTo(views, catalogs, map[], 0, 0, Length(catalogs, 0))
  {
    assert forall f :: !Past(catalogs, 0, Length(catalogs, 0), f);
  }

  lemma AllNamed(catalogs: seq<seq<nat>>, files: Files, n: nat)
    requires |catalogs| == n && Domain(files, catalogs, n, 0)
    ensures Named(files, catalogs)
  {
    forall f ensures f in files <==> f.cls < |catalogs| && f.version in catalogs[f.cls] {
      assert f in files <==> Past(catalogs, n, 0, f);
    }
  }

  lemma FreshIsShaped(files: Files, catalogs: seq<seq<nat>>, count: nat)
    requires Named(files, catalogs)
    requires forall c :: 0 <= c < |catalogs| ==> Ascending(catalogs[c]) && |catalogs[c]| > 0
    ensures Shaped(Fresh(files, catalogs, count))
  {
    var s := Fresh(files, catalogs, count);
    forall c | 0 <= c < |catalogs| ensures CatalogOk(s.catalogs[c], s.highest[c]) { LastIsHighest(catalogs[c]); }
  }

  lemma AllLoaded(views: seq<View>, catalogs: seq<seq<nat>>, files: Files, count: nat)
    requires CountedTo(views, catalogs, files, count, |views|, 0)
    ensures Loaded(views, Fresh(files, catalogs, count)) && Unburdened(Fresh(files, catalogs, count))
  {
    var s := Fresh(files, catalogs, count);
    AllNamed(catalogs, files, |views|);
    forall c | 0 <= c < |views| ensures Ascending(catalogs[c]) && |catalogs[c]| > 0 && ClassTables(s, c) == Tables(views[c]) {
      TablesAgree(views, s, c);
    }
    FreshIsShaped(files, catalogs, count);
  }

  lemma LastIsHighest(versions: seq<nat>)
    requires Ascending(versions) && |versions| > 0
    ensures CatalogOk(versions, HighestOf(versions))
  {
  }

  lemma TablesAgree(views: seq<View>, s: State, c: nat)
    requires |s.catalogs| == |views| && c < |views| && s.catalogs[c] == Listed(DataVersions(views[c]))
    requires Named(s.files, s.catalogs) && Truthful(s.files, views)
    ensures ClassTables(s, c) == Tables(views[c])
  {
    forall v: nat ensures v in ClassTables(s, c) <==> v in Tables(views[c]) {
      assert v in s.catalogs[c] <==> v in DataVersions(views[c]);
      if v in s.catalogs[c] { assert File(c, v) in s.files; }
    }
    forall v: nat | v in ClassTables(s, c) ensures ClassTables(s, c)[v] == Tables(views[c])[v] {
      assert Holding(views[c], v, s.files[File(c, v)]);
    }
  }
}
