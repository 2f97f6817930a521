/**
  The groups of one compaction: which consecutive versions each new file was made of, and why
  every entry is where it was or in the file its version was merged into.
*/
module Grouping {
  import opened Basics
  import opened BuildLoop
  import opened Greedy

  function TablesAt(ts: map<nat, Table>, sources: seq<nat>): (r: seq<Table>)
    ensures |r| == |sources|
  {
    seq(|sources|, i requires 0 <= i < |sources| => if sources[i] in ts then ts[sources[i]] else map[])
  }

  lemma {:induction false} UnitedIsMerged(ts: map<nat, Table>, sources: seq<nat>)
    requires forall s :: s in sources ==> s in ts
    ensures United(TablesAt(ts, sources)) == MergedOf(ts, sources)
  {
    if sources != [] {
      var init := sources[..|sources| - 1];
      UnitedIsMerged(ts, init);
      assert TablesAt(ts, sources)[..|sources| - 1] == TablesAt(ts, init);
    }
  }

  lemma CopiesSnoc(tables: seq<Table>, t: Table)
    ensures Copies(tables + [t]) == Copies(tables) + |t|
  {
    assert (tables + [t])[..|tables|] == tables;
  }

  function Sizes(ts: map<nat, Table>, versions: seq<nat>): (r: seq<nat>)
    ensures |r| == |versions|
  {
    seq(|versions|, i requires 0 <= i < |versions| => if versions[i] in ts then |ts[versions[i]]| else 0)
  }

  lemma RunSnoc(ts: map<nat, Table>, versions: seq<nat>, a: nat, b: nat, last: Table)
    requires a < b <= |versions| && last == TablesAt(ts, versions)[b - 1]
    ensures TablesAt(ts, versions[a..b]) == TablesAt(ts, versions[a..b - 1]) + [last]
    ensures Total(Sizes(ts, versions), b) == Total(Sizes(ts, versions), b - 1) + |last|
  {
  }

  lemma {:induction false} RunCopies(ts: map<nat, Table>, versions: seq<nat>, a: nat, b: nat)
    requires a <= b <= |versions|
    ensures Copies(TablesAt(ts, versions[a..b])) == Total(Sizes(ts, versions), b) - Total(Sizes(ts, versions), a)
    decreases b - a
  {
    if a < b {
      var last := TablesAt(ts, versions)[b - 1];
      RunCopies(ts, versions, a, b - 1);
      RunSnoc(ts, versions, a, b, last);
      CopiesSnoc(TablesAt(ts, versions[a..b - 1]), last);
    }
  }

  lemma FitsWhenCopiesDo(ts: map<nat, Table>, versions: seq<nat>, limit: nat, a: nat, b: nat)
    requires a + 2 <= b <= |versions|
    ensures Fits(Sizes(ts, versions), limit, a, b) <==> Copies(TablesAt(ts, versions[a..b])) <= limit
  {
    RunCopies(ts, versions, a, b);
  }

  ghost predicate CutsSoFar(sizes: seq<nat>, limit: nat, cuts: seq<nat>, first: nat) {
    && |cuts| > 0 && cuts[0] == 0 && cuts[|cuts| - 1] == first <= |sizes|
    && (forall i :: 0 <= i < |cuts| ==> cuts[i] <= |sizes|)
    && (forall i :: 0 <= i < |cuts| - 1 ==> cuts[i] < cuts[i + 1] && Fits(sizes, limit, cuts[i], cuts[i + 1]))
  }

  /** No run from `first` past `end` fits. */
  ghost predicate TooMany(sizes: seq<nat>, limit: nat, first: nat, end: nat)
    requires first <= end
  {
    forall b :: end < b <= |sizes| ==> !Fits(sizes, limit, first, b)
  }

  lemma SingleFits(sizes: seq<nat>, limit: nat, first: nat, end: nat)
    requires first < end <= first + 1 <= |sizes|
    ensures Fits(sizes, limit, first, end)
  {
  }

  lemma ShorterRun(sizes: seq<nat>, limit: nat, first: nat, end: nat)
    requires first < end <= |sizes|
    ensures TooMany(sizes, limit, first, end) && !Fits(sizes, limit, first, end) ==> TooMany(sizes, limit, first, end - 1)
  {
  }

  lemma CutAgain(sizes: seq<nat>, limit: nat, cuts: seq<nat>, first: nat, end: nat)
    requires CutsSoFar(sizes, limit, cuts, first) && first < end <= |sizes|
    requires Fits(sizes, limit, first, end)
    ensures CutsSoFar(sizes, limit, cuts + [end], end)
    ensures Longest(sizes, limit, cuts) && TooMany(sizes, limit, first, end) ==> Longest(sizes, limit, cuts + [end])
  {
    var next := cuts + [end];
    if Longest(sizes, limit, cuts) && TooMany(sizes, limit, first, end) {
      forall i, b | 0 <= i < |next| - 1 && next[i] <= next[i + 1] < b <= |sizes| ensures !Fits(sizes, limit, next[i], b) {
        if i < |cuts| - 1 { assert next[i] == cuts[i] && next[i + 1] == cuts[i + 1]; }
      }
    }
  }

  /** Every way of cutting the row into runs that fit has at least `files` of them. */
  ghost predicate Fewest(sizes: seq<nat>, limit: nat, files: nat) {
    forall other :: Cuts(sizes, limit, other) && other[0] == 0 ==> files <= |other| - 1
  }

  lemma FewestRuns(sizes: seq<nat>, limit: nat, cuts: seq<nat>)
    requires CutsSoFar(sizes, limit, cuts, |sizes|) && Longest(sizes, limit, cuts)
    ensures Fewest(sizes, limit, |cuts| - 1)
  {
    forall other | Cuts(sizes, limit, other) && other[0] == 0 ensures |cuts| - 1 <= |other| - 1 {
      GreedyIsFewest(sizes, limit, cuts, other);
    }
  }

  /** The versions from `first` on are as they were. */
  ghost predicate Left(before: map<nat, Table>, now: map<nat, Table>, versions: seq<nat>, first: nat) {
    forall j :: first <= j < |versions| ==>
      versions[j] in now && versions[j] in before && now[versions[j]] == before[versions[j]]
  }

  lemma RunIsGroup(before: map<nat, Table>, now: map<nat, Table>, versions: seq<nat>, first: nat, end: nat)
    requires Ascending(versions) && first <= end <= |versions| && Left(before, now, versions, first)
    ensures Ascending(versions[first..end])
    ensures forall s :: s in versions[first..end] ==> s in now
    ensures TablesAt(now, versions[first..end]) == TablesAt(before, versions[first..end])
  {
    var group := versions[first..end];
    forall i | 0 <= i < |group| ensures group[i] == versions[first + i] && group[i] in now && now[group[i]] == before[group[i]] {}
  }

  /** No two versions of the row share a key. */
  ghost predicate RowApart(ts: map<nat, Table>, versions: seq<nat>) { Disjoint(TablesAt(ts, versions)) }

  lemma RunApart(ts: map<nat, Table>, versions: seq<nat>, first: nat, end: nat)
    requires first <= end <= |versions| && RowApart(ts, versions)
    ensures Disjoint(TablesAt(ts, versions[first..end]))
  {
    var run, whole := TablesAt(ts, versions[first..end]), TablesAt(ts, versions);
    forall i, j, k | 0 <= i < j < |run| && k in run[i] ensures k !in run[j] {
      assert run[i] == whole[first + i] && run[j] == whole[first + j];
    }
  }

  // ------------------------------------------------------------------
  // What became of each version
  // ------------------------------------------------------------------

  /** `sources` gave way to one new version `t`, which holds every entry of each of them. */
  ghost predicate Merges(before: map<nat, Table>, after: map<nat, Table>, sources: seq<nat>, t: nat, top: nat) {
    && t > top && t !in before && (forall s :: s in sources ==> s in before)
    && Disjoint(TablesAt(before, sources)) && after == Replaced(before, sources, t)
  }

  ghost predicate Moved(before: map<nat, Table>, after: map<nat, Table>, sources: seq<nat>, moved: Option<nat>, top: nat) {
    if moved.Some? then Merges(before, after, sources, moved.value, top) else after == before
  }

  /** The run from `a` up to `b` is now version `v`: the one version it was, or a new one holding the
      union of exactly those tables. */
  ghost predicate RunAt(before: map<nat, Table>, after: map<nat, Table>, versions: seq<nat>, a: nat, b: nat, v: nat, top: nat) {
    && a < b <= |versions| && v in after
    && if b == a + 1 then v == versions[a] && v in before && after[v] == before[v]
       else v > top && Disjoint(TablesAt(before, versions[a..b])) && after[v] == United(TablesAt(before, versions[a..b]))
  }

  /** The versions a run was made of, run after run; what is left of the row is as it was; and there is
      nothing else. */
  ghost predicate Consumed(before: map<nat, Table>, after: map<nat, Table>, versions: seq<nat>, cuts: seq<nat>, made: seq<nat>, top: nat) {
    && |cuts| == |made| + 1 && cuts[0] == 0 && cuts[|made|] <= |versions|
    && (forall i :: 0 <= i < |made| ==> RunAt(before, after, versions, cuts[i], cuts[i + 1], made[i], top))
    && (forall i, j :: 0 <= i < j < |made| ==> made[i] != made[j])
    && Left(before, after, versions, cuts[|made|])
    && (forall v :: v in after <==> v in made || v in versions[cuts[|made|]..])
  }

  ghost predicate HasIn(ts: map<nat, Table>, v: nat, k: Key, e: Entry) { v in ts && k in ts[v] && ts[v][k] == e }

  ghost predicate Has(ts: map<nat, Table>, k: Key, e: Entry) { exists v :: HasIn(ts, v, k, e) }

  /** Every key with every entry it had, and no other, whether or not some were held twice; and what was
      held once still is. */
  ghost predicate Conserved(before: map<nat, Table>, after: map<nat, Table>) {
    && (forall k, e :: Has(before, k, e) <==> Has(after, k, e))
    && (forall m :: Partition(before, m) ==> Partition(after, m))
  }

  lemma DisjointInit(ts: map<nat, Table>, sources: seq<nat>)
    requires sources != [] && Disjoint(TablesAt(ts, sources))
    ensures Disjoint(TablesAt(ts, sources[..|sources| - 1]))
    ensures forall i, k :: 0 <= i < |sources| - 1 && k in TablesAt(ts, sources)[i] ==> k !in TablesAt(ts, sources)[|sources| - 1]
  {
    var all, init := TablesAt(ts, sources), TablesAt(ts, sources[..|sources| - 1]);
    forall i, j, k | 0 <= i < j < |init| && k in init[i] ensures k !in init[j] {
      assert all[i] == init[i] && all[j] == init[j];
    }
  }

  /** What was merged is what the sources had. */
  lemma {:induction false} MergedHas(ts: map<nat, Table>, sources: seq<nat>, k: Key, e: Entry)
    requires (forall s :: s in sources ==> s in ts) && Disjoint(TablesAt(ts, sources))
    ensures k in MergedOf(ts, sources) && MergedOf(ts, sources)[k] == e <==> exists s :: s in sources && HasIn(ts, s, k, e)
  {
    if sources != [] {
      var init, last := sources[..|sources| - 1], sources[|sources| - 1];
      assert sources == init + [last];
      DisjointInit(ts, sources);
      MergedHas(ts, init, k, e);
      if k in ts[last] {
        forall s | s in init ensures k !in ts[s] || s == last {
          if k in ts[s] && s != last { LastLacks(ts, sources, s, k); }
        }
        if s :| s in sources && HasIn(ts, s, k, e) { assert s in init || s == last; }
        if ts[last][k] == e { assert last in sources && HasIn(ts, last, k, e); }
      } else {
        if s :| s in init && HasIn(ts, s, k, e) { assert s in sources; }
      }
    }
  }

  lemma LastLacks(ts: map<nat, Table>, sources: seq<nat>, s: nat, k: Key)
    requires sources != [] && (forall x :: x in sources ==> x in ts) && Disjoint(TablesAt(ts, sources))
    requires s in sources && s != sources[|sources| - 1] && k in ts[s]
    ensures s in sources[..|sources| - 1] && k !in ts[sources[|sources| - 1]]
  {
    DisjointInit(ts, sources);
    var i :| 0 <= i < |sources| && sources[i] == s;
    assert sources[..|sources| - 1][i] == s && TablesAt(ts, sources)[i] == ts[s];
  }

  lemma MergesConserve(before: map<nat, Table>, after: map<nat, Table>, sources: seq<nat>, t: nat, top: nat)
    requires Merges(before, after, sources, t, top)
    ensures Conserved(before, after)
  {
    forall k, e ensures Has(before, k, e) <==> Has(after, k, e) {
      MergedHas(before, sources, k, e);
      if Has(before, k, e) {
        var v :| HasIn(before, v, k, e);
        assert HasIn(after, if v in sources then t else v, k, e);
      }
      if Has(after, k, e) {
        var v :| HasIn(after, v, k, e);
        if v != t { assert HasIn(before, v, k, e); }
      }
    }
    forall m | Partition(before, m) ensures Partition(after, m) { PartitionReplaced(before, sources, t, m); }
  }

  lemma MovedConserves(a: map<nat, Table>, b: map<nat, Table>, c: map<nat, Table>, sources: seq<nat>, moved: Option<nat>, top: nat)
    requires Conserved(a, b) && Moved(b, c, sources, moved, top)
    ensures Conserved(a, c)
  {
    if moved.Some? { MergesConserve(b, c, sources, moved.value, top); }
  }

  lemma NothingConsumed(before: map<nat, Table>, versions: seq<nat>, top: nat)
    requires forall v :: v in before <==> v in versions
    ensures Consumed(before, before, versions, [0], [], top)
  {
    assert versions[0..] == versions;
  }

  lemma RestAfter(versions: seq<nat>, first: nat, end: nat)
    requires Ascending(versions) && first <= end <= |versions|
    ensures forall v :: v in versions[first..] <==> v in versions[first..end] || v in versions[end..]
    ensures forall v :: v in versions[first..end] ==> v !in versions[end..]
  {
    assert versions[first..] == versions[first..end] + versions[end..];
  }

  /** A run of one version that no merge touched. */
  lemma ConsumedOne(before: map<nat, Table>, after: map<nat, Table>, versions: seq<nat>, cuts: seq<nat>, made: seq<nat>, top: nat)
    requires Consumed(before, after, versions, cuts, made, top) && cuts[|made|] < |versions|
    requires Ascending(versions) && forall v :: v in versions ==> v <= top
    ensures Consumed(before, after, versions, cuts + [cuts[|made|] + 1], made + [versions[cuts[|made|]]], top)
  {
    var first := cuts[|made|];
    var cuts2, made2 := cuts + [first + 1], made + [versions[first]];
    RestAfter(versions, first, first + 1);
    assert versions[first..first + 1] == [versions[first]];
    forall i | 0 <= i < |made| ensures made[i] != versions[first] { MadeIsNotLeft(before, after, versions, cuts, made, top, i, first); }
    forall i | 0 <= i < |made2| ensures RunAt(before, after, versions, cuts2[i], cuts2[i + 1], made2[i], top) {
      if i < |made| { assert RunAt(before, after, versions, cuts[i], cuts[i + 1], made[i], top); }
    }
  }

  lemma {:induction false} CutsGrow(before: map<nat, Table>, after: map<nat, Table>, versions: seq<nat>, cuts: seq<nat>, made: seq<nat>, top: nat, i: nat, j: nat)
    requires Consumed(before, after, versions, cuts, made, top) && i < j <= |made|
    ensures cuts[i] < cuts[j]
    decreases j
  {
    assert RunAt(before, after, versions, cuts[j - 1], cuts[j - 1 + 1], made[j - 1], top);
    if i < j - 1 { CutsGrow(before, after, versions, cuts, made, top, i, j - 1); }
  }

  lemma MadeIsNotLeft(before: map<nat, Table>, after: map<nat, Table>, versions: seq<nat>, cuts: seq<nat>, made: seq<nat>, top: nat, i: nat, j: nat)
    requires Consumed(before, after, versions, cuts, made, top) && i < |made| && cuts[|made|] <= j < |versions|
    requires Ascending(versions) && forall v :: v in versions ==> v <= top
    ensures made[i] != versions[j]
  {
    assert RunAt(before, after, versions, cuts[i], cuts[i + 1], made[i], top);
    CutsGrow(before, after, versions, cuts, made, top, i, |made|);
    assert versions[j] in versions;
  }

  /** A run that was merged: its versions are gone, their union is the new one, the others are untouched. */
  lemma ConsumedMore(before: map<nat, Table>, mid: map<nat, Table>, after: map<nat, Table>, versions: seq<nat>, cuts: seq<nat>, made: seq<nat>,
                     top: nat, end: nat, t: nat, higher: nat)
    requires Consumed(before, mid, versions, cuts, made, top) && cuts[|made|] + 2 <= end <= |versions|
    requires Ascending(versions) && (forall v :: v in versions ==> v <= top) && top <= higher
    requires Merges(mid, after, versions[cuts[|made|]..end], t, higher)
    ensures Consumed(before, after, versions, cuts + [end], made + [t], top)
  {
    var first := cuts[|made|];
    var run := versions[first..end];
    RestAfter(versions, first, end);
    RunIsGroup(before, mid, versions, first, end);
    UnitedIsMerged(mid, run);
    assert RunAt(before, after, versions, first, end, t, top);
    forall i | 0 <= i < |made| ensures made[i] in after && after[made[i]] == mid[made[i]] && made[i] != t {
      NotInRun(before, mid, versions, cuts, made, top, i, end);
    }
    ConsumedRuns(before, mid, after, versions, cuts, made, top, end, t);
    forall j | end <= j < |versions| ensures versions[j] in after && after[versions[j]] == before[versions[j]] {
      assert versions[j] in versions[end..];
    }
    ConsumedKeys(before, mid, after, versions, cuts, made, top, end, t);
  }

  lemma NotInRun(before: map<nat, Table>, mid: map<nat, Table>, versions: seq<nat>, cuts: seq<nat>, made: seq<nat>, top: nat, i: nat, end: nat)
    requires Consumed(before, mid, versions, cuts, made, top) && i < |made| && cuts[|made|] <= end <= |versions|
    requires Ascending(versions) && forall v :: v in versions ==> v <= top
    ensures made[i] in mid && made[i] !in versions[cuts[|made|]..end]
  {
    assert RunAt(before, mid, versions, cuts[i], cuts[i + 1], made[i], top);
    if made[i] in versions[cuts[|made|]..end] {
      var j :| cuts[|made|] <= j < end && versions[j] == made[i];
      MadeIsNotLeft(before, mid, versions, cuts, made, top, i, j);
    }
  }

  lemma ConsumedRuns(before: map<nat, Table>, mid: map<nat, Table>, after: map<nat, Table>, versions: seq<nat>, cuts: seq<nat>, made: seq<nat>,
                     top: nat, end: nat, t: nat)
    requires Consumed(before, mid, versions, cuts, made, top)
    requires RunAt(before, after, versions, cuts[|made|], end, t, top)
    requires forall i :: 0 <= i < |made| ==> made[i] in after && after[made[i]] == mid[made[i]]
    ensures forall i :: 0 <= i < |made + [t]| ==>
              RunAt(before, after, versions, (cuts + [end])[i], (cuts + [end])[i + 1], (made + [t])[i], top)
  {
    forall i | 0 <= i < |made + [t]| ensures RunAt(before, after, versions, (cuts + [end])[i], (cuts + [end])[i + 1], (made + [t])[i], top) {
      if i < |made| { assert RunAt(before, mid, versions, cuts[i], cuts[i + 1], made[i], top); }
    }
  }

  lemma ConsumedKeys(before: map<nat, Table>, mid: map<nat, Table>, after: map<nat, Table>, versions: seq<nat>, cuts: seq<nat>, made: seq<nat>,
                     top: nat, end: nat, t: nat)
    requires Consumed(before, mid, versions, cuts, made, top) && cuts[|made|] <= end <= |versions|
    requires Ascending(versions) && (forall v :: v in versions ==> v <= top)
    requires forall v :: v in after <==> (v in mid && v !in versions[cuts[|made|]..end]) || v == t
    ensures forall v :: v in after <==> v in made + [t] || v in versions[end..]
  {
    RestAfter(versions, cuts[|made|], end);
    forall v ensures v in after <==> v in made + [t] || v in versions[end..] {
      if v in made {
        var i :| 0 <= i < |made| && made[i] == v;
        NotInRun(before, mid, versions, cuts, made, top, i, end);
      }
    }
  }

  // ------------------------------------------------------------------
  // The account of a compaction
  // ------------------------------------------------------------------

  /** `before`: what the class held. `cuts`: where the runs begin and end. `made`: the version each run is
      now. `top`: the highest identity issued before. */
  datatype Account = Account(before: map<nat, Table>, cuts: seq<nat>, made: seq<nat>, top: nat)

  /** How far into the row of versions the runs go. */
  function Reached(a: Account): nat { if a.cuts == [] then 0 else a.cuts[|a.cuts| - 1] }

  ghost predicate Accounts(a: Account, now: map<nat, Table>, versions: seq<nat>, files: nat, limit: nat) {
    && Ascending(versions) && (forall v :: v in versions ==> v <= a.top)
    && Consumed(a.before, now, versions, a.cuts, a.made, a.top)
    && CutsSoFar(Sizes(a.before, versions), limit, a.cuts, Reached(a))
    && Conserved(a.before, now)
    && files == |a.made| + |versions| - Reached(a)
  }

  lemma AccountAtFirst(before: map<nat, Table>, versions: seq<nat>, top: nat, limit: nat)
    requires Ascending(versions) && (forall v :: v in versions ==> v <= top) && forall v :: v in before <==> v in versions
    ensures Accounts(Account(before, [0], [], top), before, versions, |versions|, limit)
  {
    NothingConsumed(before, versions, top);
  }
}
