/**
  The durability register over whole runs: which versions the next `sync` has to flush, and the
  one operation that forgets one.
*/
module Durability {
  import opened Basics
  import opened Batch
  import opened StoreState
  import opened Insertion
  import opened Deletion
  import opened BuildLoop
  import opened Greedy
  import opened Grouping
  import opened Compaction

  // ------------------------------------------------------------------
  // Compaction
  // ------------------------------------------------------------------

  /** The register's part for one class. */
  function OwedOf(s: State, c: nat): set<nat> {
    set f | f in s.dirty && f.cls == c :: f.version
  }

  /** How many entries each version of a class holds. */
  function SizesIn(s: State, c: nat): (r: seq<nat>)
    requires c < |s.catalogs|
    ensures |r| == |s.catalogs[c]|
  {
    seq(|s.catalogs[c]|, i requires 0 <= i < |s.catalogs[c]| =>
      var f := File(c, s.catalogs[c][i]);
      if f in s.files then |s.files[f]| else 0)
  }

  /** A class after a compaction, however it ended, as `Compaction.Compactor.MergeGroups` accounts for it: `now` is
      what it holds. The merge targets are durable, and a version it kept is as durable as it was. */
  ghost predicate Compacted(s: State, s2: State, c: nat, a: Account, now: map<nat, Table>, limit: nat) {
    && RegisterKept(s, s2, c)
    && a.before == ClassTables(s, c) && a.top == s.highest[c] && now == ClassTables(s2, c)
    && Accounts(a, now, s.catalogs[c], |s2.catalogs[c]|, limit)
    && (forall v :: v in now <==> v in s2.catalogs[c])
  }

  /** What compaction does to the register and to what is on stable storage. */
  ghost predicate RegisterKept(s: State, s2: State, c: nat) {
    && Shaped(s) && Shaped(s2) && |s2.catalogs| == |s.catalogs| && c < |s.catalogs|
    && (forall d :: 0 <= d < |s.catalogs| && d != c ==> s2.catalogs[d] == s.catalogs[d])
    && SameOutside(s, s2, c)
    && Registers(s.catalogs[c], s2.catalogs[c], OwedOf(s, c), OwedOf(s2, c), s.highest[c])
    && (forall v :: v in s2.catalogs[c] ==>
          if v in s.catalogs[c] then (File(c, v) in s2.durable <==> File(c, v) in s.durable) else File(c, v) in s2.durable)
  }

  /** Nothing happened to the other classes, nor to the running total. */
  ghost predicate SameOutside(s: State, s2: State, c: nat) {
    && (forall f: File :: f.cls != c ==> (f in s2.dirty <==> f in s.dirty) && (f in s2.durable <==> f in s.durable))
    && (forall f :: f in s.files && f.cls != c ==> f in s2.files && s2.files[f] == s.files[f])
    && s2.count == s.count
  }

  /** The last run is a single version. */
  predicate LastAlone(cuts: seq<nat>) { |cuts| > 1 && cuts[|cuts| - 1] == cuts[|cuts| - 2] + 1 }

  /** Some run is of two versions or more, so something is merged. */
  ghost predicate SomeLonger(cuts: seq<nat>) { exists i: nat :: LongerAt(cuts, i) }

  predicate LongerAt(cuts: seq<nat>, i: nat) { i + 1 < |cuts| && cuts[i + 1] > cuts[i] + 1 }

  /** The last run ends the row and is of two versions or more. */
  predicate TookLast(cuts: seq<nat>, n: nat) {
    |cuts| > 1 && cuts[|cuts| - 1] == n && cuts[|cuts| - 1] > cuts[|cuts| - 2] + 1
  }

  /** The version that was active was consumed by a run exactly when that was the last one, to the end of the row. */
  lemma LastIsTaken(a: Account, now: map<nat, Table>, versions: seq<nat>, files: nat, limit: nat)
    requires Accounts(a, now, versions, files, limit) && |versions| > 0
    ensures versions[|versions| - 1] in now <==> !TookLast(a.cuts, |versions|)
  {
    var n := |versions| - 1;
    assert Consumed(a.before, now, versions, a.cuts, a.made, a.top) && versions[n] in versions;
    if Reached(a) <= n {
      assert versions[Reached(a)..][n - Reached(a)] == versions[n];
    } else {
      LastRun(a, now, versions, files, limit);
    }
  }

  lemma LastRun(a: Account, now: map<nat, Table>, versions: seq<nat>, files: nat, limit: nat)
    requires Accounts(a, now, versions, files, limit) && |versions| > 0 && Reached(a) == |versions|
    ensures versions[|versions| - 1] in now <==> !TookLast(a.cuts, |versions|)
  {
    var n, m := |versions| - 1, |a.made| - 1;
    assert Consumed(a.before, now, versions, a.cuts, a.made, a.top) && versions[|versions|..] == [] && versions[n] in versions;
    assert RunAt(a.before, now, versions, a.cuts[m], a.cuts[m + 1], a.made[m], a.top);
    if versions[n] in now {
      var i :| 0 <= i < |a.made| && a.made[i] == versions[n];
      assert RunAt(a.before, now, versions, a.cuts[i], a.cuts[i + 1], a.made[i], a.top);
      assert a.cuts[i] == n;
      if i < m { CutsGrow(a.before, now, versions, a.cuts, a.made, a.top, i + 1, |a.made|); }
    } else {
      assert a.made[m] in now;
    }
  }

  lemma MergesIssueHigher(a: Account, now: map<nat, Table>, versions: seq<nat>, files: nat, limit: nat)
    requires Accounts(a, now, versions, files, limit) && SomeLonger(a.cuts)
    ensures exists v :: v in now && v > a.top
  {
    var i: nat :| LongerAt(a.cuts, i);
    assert Consumed(a.before, now, versions, a.cuts, a.made, a.top) && 0 <= i < |a.made|;
    assert RunAt(a.before, now, versions, a.cuts[i], a.cuts[i + 1], a.made[i], a.top);
    assert a.made[i] in now;
  }

  lemma SinglesStay(a: Account, now: map<nat, Table>, versions: seq<nat>, files: nat, limit: nat, v: nat)
    requires Accounts(a, now, versions, files, limit) && !SomeLonger(a.cuts) && v in now
    ensures v in versions
  {
    if v in versions[Reached(a)..] {
    } else {
      var j :| 0 <= j < |a.made| && a.made[j] == v;
      assert RunAt(a.before, now, versions, a.cuts[j], a.cuts[j + 1], a.made[j], a.top);
      assert !LongerAt(a.cuts, j);
    }
  }

  /** The last of two ascending rows that share it: the same, unless the second has something above the first. */
  lemma SameLast(before: seq<nat>, after: seq<nat>, top: nat)
    requires Ascending(before) && Ascending(after) && |before| > 0 && before[|before| - 1] in after
    requires forall v :: v in before ==> v <= top
    ensures (exists v :: v in after && v > top) ==> after[|after| - 1] != before[|before| - 1]
    ensures (forall v :: v in after ==> v in before) ==> after[|after| - 1] == before[|before| - 1]
  {
    var was, last := before[|before| - 1], after[|after| - 1];
    assert was in before && last in after;
    HighestIsLast(after, was);
    if v :| v in after && v > top { HighestIsLast(after, v); }
    if forall v :: v in after ==> v in before { HighestIsLast(before, last); }
  }

  lemma HighestIsLast(versions: seq<nat>, v: nat)
    requires Ascending(versions) && v in versions
    ensures v <= versions[|versions| - 1]
  {
  }

  /** A version that was active and is still there is active still exactly when nothing was merged. */
  lemma LastMoves(a: Account, now: map<nat, Table>, versions: seq<nat>, after: seq<nat>, limit: nat)
    requires Accounts(a, now, versions, |after|, limit) && |versions| > 0 && versions[|versions| - 1] in now
    requires Ascending(after) && forall v :: v in now <==> v in after
    ensures |after| > 0 && (after[|after| - 1] == versions[|versions| - 1] <==> !SomeLonger(a.cuts))
  {
    if SomeLonger(a.cuts) {
      MergesIssueHigher(a, now, versions, |after|, limit);
      var v :| v in now && v > a.top;
      assert v in after;
    } else {
      forall v | v in after ensures v in versions { SinglesStay(a, now, versions, |after|, limit, v); }
    }
    SameLast(versions, after, a.top);
  }

  /** The version about to be closed was neither durable nor owed a flush, no run took it in, and some run merged. */
  ghost predicate Forgets(s: State, c: nat, a: Account)
    requires c < |s.catalogs| && |s.catalogs[c]| > 0
  {
    var was := ActiveOf(s, c);
    was !in s.durable && was !in s.dirty && !TookLast(a.cuts, |s.catalogs[c]|) && SomeLonger(a.cuts)
  }

  /** Compaction closes the active version without noting it. However it ended and whatever stopped it, the register
      is incomplete afterwards if and only if that version was neither durable nor registered, no run took it in,
      and some run merged: then it is no longer active, and no `sync` will look at it. */
  lemma CompactionForgets(s: State, s2: State, c: nat, a: Account, now: map<nat, Table>, limit: nat)
    requires Compacted(s, s2, c, a, now, limit) && Registered(s)
    ensures |s.catalogs[c]| > 0 && (Registered(s2) <==> !Forgets(s, c, a))
  {
    WhatBecameOfIt(s, s2, c, a, now, limit);
    ForgottenWhen(s, s2, c);
  }

  /** A run took it in, or it is there and active still unless something was merged. */
  lemma WhatBecameOfIt(s: State, s2: State, c: nat, a: Account, now: map<nat, Table>, limit: nat)
    requires Shaped(s) && Shaped(s2) && c < |s.catalogs| == |s2.catalogs|
    requires Accounts(a, now, s.catalogs[c], |s2.catalogs[c]|, limit) && forall v :: v in now <==> v in s2.catalogs[c]
    ensures |s.catalogs[c]| > 0 && |s2.catalogs[c]| > 0
    ensures ActiveOf(s, c) in s2.files <==> !TookLast(a.cuts, |s.catalogs[c]|)
    ensures ActiveOf(s, c) in s2.files ==> (ActiveOf(s2, c) == ActiveOf(s, c) <==> !SomeLonger(a.cuts))
  {
    RowIsInOrder(s, c);
    RowIsInOrder(s2, c);
    LastIsTaken(a, now, s.catalogs[c], |s2.catalogs[c]|, limit);
    ActiveAfter(s, s2, c, a, now, limit);
  }

  lemma RowIsInOrder(s: State, c: nat)
    requires Shaped(s) && c < |s.catalogs|
    ensures Ascending(s.catalogs[c]) && |s.catalogs[c]| > 0
  {
    assert CatalogOk(s.catalogs[c], s.highest[c]);
  }

  lemma ActiveAfter(s: State, s2: State, c: nat, a: Account, now: map<nat, Table>, limit: nat)
    requires c < |s.catalogs| == |s2.catalogs| && |s.catalogs[c]| > 0 && Named(s2.files, s2.catalogs) && Ascending(s2.catalogs[c])
    requires Accounts(a, now, s.catalogs[c], |s2.catalogs[c]|, limit) && forall v :: v in now <==> v in s2.catalogs[c]
    ensures ActiveOf(s, c) in s2.files <==> ActiveOf(s, c).version in now
    ensures ActiveOf(s, c) in s2.files ==> |s2.catalogs[c]| > 0 && (ActiveOf(s2, c) == ActiveOf(s, c) <==> !SomeLonger(a.cuts))
  {
    if ActiveOf(s, c) in s2.files { LastMoves(a, now, s.catalogs[c], s2.catalogs[c], limit); }
  }

  /** What a caller can see to before the call: a version that is durable or owed a flush when it is closed is never
      forgotten, whatever happens to the compaction. */
  lemma FlushedIsNotForgotten(s: State, s2: State, c: nat, a: Account, now: map<nat, Table>, limit: nat)
    requires Compacted(s, s2, c, a, now, limit) && Registered(s) && |s.catalogs[c]| > 0
    requires ActiveOf(s, c) in s.durable || ActiveOf(s, c) in s.dirty
    ensures Registered(s2)
  {
    CompactionForgets(s, s2, c, a, now, limit);
  }

  // ------------------------------------------------------------------
  // With capacity the only obstacle
  // ------------------------------------------------------------------

  /** What can then be told before the call: the version about to be closed is neither durable nor owed a flush, the
      greedy runs leave it alone, and they merge something before it. */
  ghost predicate WouldForget(s: State, c: nat, limit: nat)
    requires c < |s.catalogs| && |s.catalogs[c]| > 0
  {
    var was, cuts := ActiveOf(s, c), GreedyCuts(SizesIn(s, c), limit, 0);
    was !in s.durable && was !in s.dirty && LastAlone(cuts) && SomeLonger(cuts)
  }

  /** A compaction that succeeded with capacity the only obstacle took the longest runs that fit, to the end of the
      row; then the sizes say before the call whether it will forget the active version. */
  lemma CapacityForgets(s: State, s2: State, c: nat, a: Account, now: map<nat, Table>, limit: nat)
    requires Compacted(s, s2, c, a, now, limit) && Registered(s)
    requires Reached(a) == |s.catalogs[c]| && Longest(Sizes(a.before, s.catalogs[c]), limit, a.cuts)
    ensures |s.catalogs[c]| > 0 && (Registered(s2) <==> !WouldForget(s, c, limit))
  {
    CompactionForgets(s, s2, c, a, now, limit);
    TookGreedyCuts(s, s2, c, a, now, limit);
    assert |a.cuts| == |a.made| + 1;
  }

  lemma TookGreedyCuts(s: State, s2: State, c: nat, a: Account, now: map<nat, Table>, limit: nat)
    requires Compacted(s, s2, c, a, now, limit)
    requires Reached(a) == |s.catalogs[c]| && Longest(Sizes(a.before, s.catalogs[c]), limit, a.cuts)
    ensures a.cuts == GreedyCuts(SizesIn(s, c), limit, 0) && |a.cuts| > 1
    ensures TookLast(a.cuts, |s.catalogs[c]|) <==> !LastAlone(a.cuts)
  {
    assert CatalogOk(s.catalogs[c], s.highest[c]);
    SizesAgree(s, c);
    LongestRunsAreGreedy(SizesIn(s, c), limit, a.cuts);
  }

  lemma SizesAgree(s: State, c: nat)
    requires Shaped(s) && c < |s.catalogs|
    ensures Sizes(ClassTables(s, c), s.catalogs[c]) == SizesIn(s, c)
  {
  }

  lemma OwedMeans(s: State, c: nat)
    ensures forall v :: v in OwedOf(s, c) <==> File(c, v) in s.dirty
  {
    forall v ensures v in OwedOf(s, c) <==> File(c, v) in s.dirty {
      if v in OwedOf(s, c) { var f :| f in s.dirty && f.cls == c && f.version == v; assert f == File(c, v); }
    }
  }

  lemma ForgottenWhen(s: State, s2: State, c: nat)
    requires RegisterKept(s, s2, c) && Registered(s) && |s.catalogs[c]| > 0 && |s2.catalogs[c]| > 0
    ensures var was := ActiveOf(s, c);
            Registered(s2) <==> was in s.durable || was in s.dirty || was !in s2.files || was == ActiveOf(s2, c)
  {
    var was := ActiveOf(s, c);
    ActiveIsThere(s, c);
    OwedMeans(s, c);
    OwedMeans(s2, c);
    if was in s2.files && was !in s.durable && was !in s.dirty && was != ActiveOf(s2, c) {
      assert was == File(c, was.version) && was.version in s2.catalogs[c] && was.version in s.catalogs[c];
      assert was !in s2.durable && was !in s2.dirty;
    }
    if was in s.durable || was in s.dirty || was !in s2.files || was == ActiveOf(s2, c) {
      forall f | f in s2.files && f !in s2.durable ensures f in s2.dirty || IsActive(s2, f) {
        StillOwed(s, s2, c, f);
      }
    }
  }

  lemma StillOwed(s: State, s2: State, c: nat, f: File)
    requires RegisterKept(s, s2, c) && Registered(s) && |s.catalogs[c]| > 0 && |s2.catalogs[c]| > 0 && f in s2.files && f !in s2.durable
    requires forall v :: v in OwedOf(s, c) <==> File(c, v) in s.dirty
    requires forall v :: v in OwedOf(s2, c) <==> File(c, v) in s2.dirty
    requires var was := ActiveOf(s, c); was in s.durable || was in s.dirty || was !in s2.files || was == ActiveOf(s2, c)
    ensures f in s2.dirty || IsActive(s2, f)
  {
    if f.cls == c {
      StillOwedHere(s, s2, c, f);
    } else {
      assert f in s.files && f !in s.durable;
    }
  }

  lemma StillOwedHere(s: State, s2: State, c: nat, f: File)
    requires RegisterKept(s, s2, c) && Registered(s) && |s.catalogs[c]| > 0 && |s2.catalogs[c]| > 0 && f in s2.files && f !in s2.durable
    requires forall v :: v in OwedOf(s, c) <==> File(c, v) in s.dirty
    requires forall v :: v in OwedOf(s2, c) <==> File(c, v) in s2.dirty
    requires var was := ActiveOf(s, c); was in s.durable || was in s.dirty || was !in s2.files || was == ActiveOf(s2, c)
    requires f.cls == c
    ensures f in s2.dirty || f == ActiveOf(s2, c)
  {
    assert f == File(c, f.version) && f.version in s2.catalogs[c];
    assert f.version in s.catalogs[c] && f in s.files && f !in s.durable;
    if f !in s.dirty { assert f == ActiveOf(s, c); }
  }

  // ------------------------------------------------------------------
  // The running total
  // ------------------------------------------------------------------

  function FilesIn(c: nat, versions: seq<nat>): set<File> { set v | v in versions :: File(c, v) }

  ghost predicate Apart(versions: seq<nat>) {
    forall i, j :: 0 <= i < j < |versions| ==> versions[i] != versions[j]
  }

  lemma FilesInSnoc(files: Files, c: nat, versions: seq<nat>)
    requires versions != [] && Apart(versions)
    ensures var init, last := versions[..|versions| - 1], versions[|versions| - 1];
            Apart(init) && last !in init && files - {File(c, last)} - FilesIn(c, init) == files - FilesIn(c, versions)
  {
    var init, last := versions[..|versions| - 1], versions[|versions| - 1];
    assert versions == init + [last];
    assert FilesIn(c, versions) == FilesIn(c, init) + {File(c, last)};
  }

  /** What the files of some versions of a class come to, and the others. */
  lemma {:induction false} WeightOfRow(files: Files, ts: map<nat, Table>, c: nat, versions: seq<nat>)
    requires Apart(versions) && forall v :: v in versions ==> v in ts && File(c, v) in files && files[File(c, v)] == ts[v]
    ensures Weight(files) == Weight(files - FilesIn(c, versions)) + Total(Sizes(ts, versions), |versions|)
    decreases |versions|
  {
    if versions == [] {
      assert files - FilesIn(c, versions) == files;
    } else {
      var init, last := versions[..|versions| - 1], versions[|versions| - 1];
      FilesInSnoc(files, c, versions);
      assert last in versions && File(c, last) in files;
      WeightPick(files, File(c, last));
      RowWithoutLast(files, ts, c, versions);
      WeightOfRow(files - {File(c, last)}, ts, c, init);
    }
  }

  lemma RowWithoutLast(files: Files, ts: map<nat, Table>, c: nat, versions: seq<nat>)
    requires versions != [] && Apart(versions)
    requires forall v :: v in versions ==> v in ts && File(c, v) in files && files[File(c, v)] == ts[v]
    ensures var init, rest := versions[..|versions| - 1], files - {File(c, versions[|versions| - 1])};
            && (forall v :: v in init ==> v in ts && File(c, v) in rest && rest[File(c, v)] == ts[v])
            && Total(Sizes(ts, versions), |versions|) == Total(Sizes(ts, init), |init|) + |ts[versions[|versions| - 1]]|
  {
    var init := versions[..|versions| - 1];
    forall v | v in init ensures v in versions && v != versions[|versions| - 1] {}
    assert versions[|versions| - 1] in versions;
    TotalOfPart(Sizes(ts, versions), Sizes(ts, init), |init|);
  }

  lemma {:induction false} TotalOfPart(xs: seq<nat>, ys: seq<nat>, n: nat)
    requires n <= |xs| && n <= |ys| && forall i :: 0 <= i < n ==> xs[i] == ys[i]
    ensures Total(xs, n) == Total(ys, n)
  {
    if n > 0 { TotalOfPart(xs, ys, n - 1); }
  }

  /** One run holds as many entries as it was made of. */
  lemma RunSize(a: Account, now: map<nat, Table>, versions: seq<nat>, files: nat, limit: nat, i: nat)
    requires Accounts(a, now, versions, files, limit) && i < |a.made|
    ensures a.made[i] in now && a.cuts[i] <= a.cuts[i + 1] <= |versions|
    ensures |now[a.made[i]]| == Total(Sizes(a.before, versions), a.cuts[i + 1]) - Total(Sizes(a.before, versions), a.cuts[i])
  {
    var x, y := a.cuts[i], a.cuts[i + 1];
    assert RunAt(a.before, now, versions, x, y, a.made[i], a.top);
    if y > x + 1 {
      SharedKeysAreFewer(TablesAt(a.before, versions[x..y]));
      RunCopies(a.before, versions, x, y);
    }
  }

  /** The row as it is now: what the runs became, and what they did not reach. */
  function NowRow(a: Account, versions: seq<nat>): seq<nat>
    requires Reached(a) <= |versions|
  {
    a.made + versions[Reached(a)..]
  }

  lemma {:induction false} MadeTotal(a: Account, now: map<nat, Table>, versions: seq<nat>, files: nat, limit: nat, i: nat)
    requires Accounts(a, now, versions, files, limit) && i <= |a.made|
    ensures a.cuts[i] <= |versions|
    ensures Total(Sizes(now, NowRow(a, versions)), i) == Total(Sizes(a.before, versions), a.cuts[i])
  {
    if i > 0 {
      MadeTotal(a, now, versions, files, limit, i - 1);
      RunSize(a, now, versions, files, limit, i - 1);
      assert NowRow(a, versions)[i - 1] == a.made[i - 1];
    }
  }

  lemma {:induction false} GoOnAlike(xs: seq<nat>, ys: seq<nat>, m: nat, r: nat, j: nat)
    requires m + j <= |xs| && r + j <= |ys| && Total(xs, m) == Total(ys, r)
    requires xs[m..m + j] == ys[r..r + j]
    ensures Total(xs, m + j) == Total(ys, r + j)
  {
    if j > 0 {
      assert xs[m..m + j - 1] == xs[m..m + j][..j - 1] && ys[r..r + j - 1] == ys[r..r + j][..j - 1];
      GoOnAlike(xs, ys, m, r, j - 1);
      assert xs[m..m + j][j - 1] == xs[m + j - 1] && ys[r..r + j][j - 1] == ys[r + j - 1];
    }
  }

  lemma RestStep(a: Account, now: map<nat, Table>, versions: seq<nat>, j: nat)
    requires Reached(a) + j < |versions| && Grouping.Left(a.before, now, versions, Reached(a))
    ensures Sizes(now, NowRow(a, versions))[|a.made| + j] == Sizes(a.before, versions)[Reached(a) + j]
  {
    assert NowRow(a, versions)[|a.made| + j] == versions[Reached(a) + j];
  }

  lemma TotalOfNow(a: Account, now: map<nat, Table>, versions: seq<nat>, files: nat, limit: nat)
    requires Accounts(a, now, versions, files, limit)
    ensures Total(Sizes(now, NowRow(a, versions)), |NowRow(a, versions)|) == Total(Sizes(a.before, versions), |versions|)
  {
    MadeTotal(a, now, versions, files, limit, |a.made|);
    RestOfNow(a, now, versions);
  }

  lemma RestOfNow(a: Account, now: map<nat, Table>, versions: seq<nat>)
    requires Reached(a) <= |versions| && Grouping.Left(a.before, now, versions, Reached(a))
    requires Total(Sizes(now, NowRow(a, versions)), |a.made|) == Total(Sizes(a.before, versions), Reached(a))
    ensures Total(Sizes(now, NowRow(a, versions)), |NowRow(a, versions)|) == Total(Sizes(a.before, versions), |versions|)
  {
    var xs, ys, j := Sizes(now, NowRow(a, versions)), Sizes(a.before, versions), |versions| - Reached(a);
    var p, q := xs[|a.made|..|a.made| + j], ys[Reached(a)..Reached(a) + j];
    forall i | 0 <= i < j ensures p[i] == q[i] { RestStep(a, now, versions, i); }
    GoOnAlike(xs, ys, |a.made|, Reached(a), j);
  }

  lemma NowRowIsApart(a: Account, now: map<nat, Table>, versions: seq<nat>, files: nat, limit: nat)
    requires Accounts(a, now, versions, files, limit)
    ensures Apart(NowRow(a, versions)) && forall v :: v in NowRow(a, versions) <==> v in now
  {
    var row := NowRow(a, versions);
    forall i, j | 0 <= i < j < |row| ensures row[i] != row[j] {
      if i < |a.made| <= j {
        MadeIsNotLeft(a.before, now, versions, a.cuts, a.made, a.top, i, Reached(a) + j - |a.made|);
      }
    }
  }

  /** Merging moves entries and adds none: the running total stays right. */
  lemma CompactionKeepsTotal(s: State, s2: State, c: nat, a: Account, now: map<nat, Table>, limit: nat)
    requires Compacted(s, s2, c, a, now, limit) && Counted(s)
    ensures Counted(s2)
  {
    var versions, files := s.catalogs[c], |s2.catalogs[c]|;
    NowRowIsApart(a, now, versions, files, limit);
    TotalOfNow(a, now, versions, files, limit);
    TotalStays(s, s2, c, versions, NowRow(a, versions));
  }

  lemma TotalStays(s: State, s2: State, c: nat, row: seq<nat>, row2: seq<nat>)
    requires Shaped(s) && Shaped(s2) && |s2.catalogs| == |s.catalogs| && c < |s.catalogs| && SameOutside(s, s2, c)
    requires forall d :: 0 <= d < |s.catalogs| && d != c ==> s2.catalogs[d] == s.catalogs[d]
    requires (forall v :: v in row <==> v in s.catalogs[c]) && forall v :: v in row2 <==> v in s2.catalogs[c]
    requires Apart(row) && Apart(row2)
    requires Total(Sizes(ClassTables(s, c), row), |row|) == Total(Sizes(ClassTables(s2, c), row2), |row2|)
    ensures Weight(s2.files) == Weight(s.files)
  {
    WeightOfClass(s, c, row);
    WeightOfClass(s2, c, row2);
    OthersStay(s, s2, c, row, row2);
  }

  lemma WeightOfClass(s: State, c: nat, row: seq<nat>)
    requires Shaped(s) && c < |s.catalogs| && Apart(row) && forall v :: v in row <==> v in s.catalogs[c]
    ensures Weight(s.files) == Weight(s.files - FilesIn(c, row)) + Total(Sizes(ClassTables(s, c), row), |row|)
  {
    forall v | v in row ensures File(c, v) in s.files { assert File(c, v).version in s.catalogs[c]; }
    WeightOfRow(s.files, ClassTables(s, c), c, row);
  }

  lemma OthersStay(s: State, s2: State, c: nat, row: seq<nat>, row2: seq<nat>)
    requires Shaped(s) && Shaped(s2) && |s2.catalogs| == |s.catalogs| && c < |s.catalogs| && SameOutside(s, s2, c)
    requires forall d :: 0 <= d < |s.catalogs| && d != c ==> s2.catalogs[d] == s.catalogs[d]
    requires (forall v :: v in row <==> v in s.catalogs[c]) && forall v :: v in row2 <==> v in s2.catalogs[c]
    ensures s.files - FilesIn(c, row) == s2.files - FilesIn(c, row2)
  {
    var x, y := s.files - FilesIn(c, row), s2.files - FilesIn(c, row2);
    forall f ensures (f in x <==> f in s.files && f.cls != c) && (f in y <==> f in s2.files && f.cls != c) {
      if f.cls == c { assert f == File(c, f.version); }
    }
  }

  // ------------------------------------------------------------------
  // Runs
  // ------------------------------------------------------------------

  /** What a run is made of. A batch of deletions is some visits to versions. */
  datatype Work =
    | Inserts(c: nat, key: Key, entry: Entry, luck: InsertLuck)
    | Visits(f: File, gone: set<Key>, threw: bool)
    | Syncs(durable: set<File>, ok: bool)
    | Compacts(c: nat, account: Account, now: map<nat, Table>, limit: nat)

  ghost predicate Does(s: State, w: Work, s2: State) {
    && Shaped(s)
    && match w
       case Inserts(c, key, entry, luck) =>
         c < |s.catalogs| && Inserted(s, c, key, entry, luck).0 == s2 && Inserted(s, c, key, entry, luck).1 != Err(EntryCorrupt)
       case Visits(f, gone, threw) =>
         f in s.files && gone <= s.files[f].Keys && (threw ==> |gone| > 0)
         && s2 == Erased(s, f, Less(s.files[f], gone), |gone|, |gone| > (if threw then 1 else 0))
       case Syncs(durable, ok) =>
         && s.durable <= durable <= s.files.Keys
         && (ok ==> s.dirty + Actives(s) <= durable)
         && s2 == s.(durable := durable, dirty := if ok then {} else s.dirty)
       case Compacts(c, account, now, limit) =>
         Compacted(s, s2, c, account, now, limit)
  }

  /** The two ways a version goes unnoted: an exception between the only erasure in a clean older version and its
      note, and a compaction that closes a version and forgets it. */
  ghost predicate Unnoted(s: State, w: Work) {
    Shaped(s) && match w
    case Visits(f, gone, threw) => f in s.files && threw && |gone| == 1 && !IsActive(s, f) && f !in s.dirty
    case Compacts(c, account, _, _) => c < |s.catalogs| && |s.catalogs[c]| > 0 && Forgets(s, c, account)
    case _ => false
  }

  /** Each step keeps the register complete exactly when it is not one of them. */
  lemma WorkKeepsRegister(s: State, w: Work, s2: State)
    requires Books(s) && Does(s, w, s2)
    ensures Shaped(s2) && Counted(s2)
    ensures Registered(s2) <==> !Unnoted(s, w)
  {
    match w
    case Inserts(c, key, entry, luck) =>
      InsertKeepsBooks(s, c, key, entry, luck, s2, Inserted(s, c, key, entry, luck).1);
    case Visits(f, gone, threw) =>
      ErasedIsShaped(s, f, Less(s.files[f], gone), |gone|, |gone| > (if threw then 1 else 0));
      ErasedIsCounted(s, f, gone, |gone|, |gone| > (if threw then 1 else 0));
      ErasedIsRegistered(s, f, Less(s.files[f], gone), |gone|, threw);
    case Syncs(durable, ok) =>
      SyncRegistered(s, durable, ok, s2);
    case Compacts(c, account, now, limit) =>
      CompactionForgets(s, s2, c, account, now, limit);
      CompactionKeepsTotal(s, s2, c, account, now, limit);
  }

  lemma SyncRegistered(s: State, durable: set<File>, ok: bool, s2: State)
    requires Shaped(s) && Registered(s) && s.durable <= durable <= s.files.Keys
    requires ok ==> s.dirty + Actives(s) <= durable
    requires s2 == s.(durable := durable, dirty := if ok then {} else s.dirty)
    ensures Shaped(s2) && Registered(s2)
    ensures ok ==> s2.durable == s2.files.Keys
  {
    forall f | f in s.files && f !in durable ensures f in s.dirty || IsActive(s, f) {}
    if ok {
      forall f | f in s.files ensures f in durable {
        LastIsActive(s, f.cls);
        assert f in s.durable || f in s.dirty || IsActive(s, f);
      }
    }
  }

  ghost predicate Worked(ss: seq<State>, ws: seq<Work>) {
    && |ss| == |ws| + 1
    && forall i :: 0 <= i < |ws| ==> Does(ss[i], ws[i], ss[i + 1]) && !Unnoted(ss[i], ws[i])
  }

  /** Over every run of insertions, rotations, deletions, syncs and compactions, failed ones among them: the total is
      right, every version that is neither active nor durable is in the register, so a `sync` that succeeds leaves
      every version durable. */
  lemma {:induction false} RegisterOverRuns(ss: seq<State>, ws: seq<Work>, n: nat)
    requires Worked(ss, ws) && n <= |ws| && Books(ss[0])
    ensures Books(ss[n])
    ensures n > 0 && ws[n - 1].Syncs? && ws[n - 1].ok ==> ss[n].durable == ss[n].files.Keys && ss[n].dirty == {}
  {
    if n > 0 {
      RegisterOverRuns(ss, ws, n - 1);
      assert Does(ss[n - 1], ws[n - 1], ss[n - 1 + 1]) && !Unnoted(ss[n - 1], ws[n - 1]);
      WorkKeepsRegister(ss[n - 1], ws[n - 1], ss[n]);
      if ws[n - 1].Syncs? { SyncRegistered(ss[n - 1], ws[n - 1].durable, ws[n - 1].ok, ss[n]); }
    }
  }
}
