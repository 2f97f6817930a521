/**
  Grouping the prefixes of a hash: consecutive runs that each hold as many records as one pass
  may, or one prefix that holds more.
*/
module Partitioning {
  import opened Basics
  import opened Greedy

  datatype Group = Group(first: nat, last: nat, records: nat)

  /** Records of the prefixes from `a` up to, and without, `b`. */
  function Records(counts: seq<nat>, a: nat, b: nat): int
    requires a <= b <= |counts|
  {
    Total(counts, b) - Total(counts, a)
  }

  /** One run of prefixes after another without a gap, from the first that is not empty, up to `end`. */
  ghost predicate Grouped(counts: seq<nat>, limit: nat, groups: seq<Group>, end: nat) {
    && end <= |counts|
    && (forall i :: 0 <= i < |groups| ==> GroupOk(counts, limit, groups[i]) && groups[i].last < end)
    && (forall i :: 0 <= i < |groups| - 1 ==> groups[i + 1].first == groups[i].last + 1)
    && (forall i, b :: 0 <= i < |groups| && groups[i].last + 1 < b <= end ==> !Fits(counts, limit, groups[i].first, b))
    && (groups == [] ==> Records(counts, 0, end) == 0)
    && (groups != [] ==> Records(counts, 0, groups[0].first) == 0 && counts[groups[0].first] > 0 && groups[|groups| - 1].last + 1 == end)
  }

  /** The figures of a group are right, and only a single prefix exceeds the limit. */
  ghost predicate GroupOk(counts: seq<nat>, limit: nat, g: Group) {
    && g.first <= g.last < |counts|
    && g.records == Records(counts, g.first, g.last + 1)
    && (g.records > limit ==> g.first == g.last)
  }

  lemma RecordsStep(counts: seq<nat>, a: nat, b: nat)
    requires a <= b < |counts|
    ensures Records(counts, a, b + 1) == Records(counts, a, b) + counts[b]
    ensures 0 <= Records(counts, a, b)
  {
    TotalGrows(counts, a, b);
  }

  lemma StillTooLong(counts: seq<nat>, limit: nat, first: nat, b: nat, c: nat)
    requires first <= b <= c <= |counts| && !Fits(counts, limit, first, b)
    ensures !Fits(counts, limit, first, c)
  {
    TotalGrows(counts, b, c);
  }

  /** The last group takes one more prefix. */
  lemma Extended(counts: seq<nat>, limit: nat, groups: seq<Group>, current: Group, end: nat)
    requires Grouped(counts, limit, groups + [current], end) && end < |counts|
    requires current.records + counts[end] <= limit
    ensures Grouped(counts, limit, groups + [Group(current.first, end, current.records + counts[end])], end + 1)
  {
    var before, next := groups + [current], Group(current.first, end, current.records + counts[end]);
    var after := groups + [next];
    assert before[|groups|] == current && after[|groups|] == next;
    RecordsStep(counts, current.first, end);
    forall i | 0 <= i < |groups| ensures after[i] == before[i] {}
    forall i | 0 <= i < |after| - 1 ensures after[i + 1].first == after[i].last + 1 {
      assert before[i + 1].first == before[i].last + 1;
    }
    forall i, b | 0 <= i < |after| && after[i].last + 1 < b <= end + 1 ensures !Fits(counts, limit, after[i].first, b) {
      assert i < |groups| && before[i] == after[i];
      if b > end {
        assert before[i + 1].first == before[i].last + 1;
        assert before[i].last + 1 < end;
        StillTooLong(counts, limit, before[i].first, end, b);
      }
    }
    RecordsStep(counts, 0, end);
  }

  /** The last group can take no more, and the next prefix begins another. */
  lemma Closed(counts: seq<nat>, limit: nat, groups: seq<Group>, end: nat)
    requires Grouped(counts, limit, groups, end) && end < |counts| && groups != []
    requires groups[|groups| - 1].records + counts[end] > limit
    ensures Grouped(counts, limit, groups + [Group(end, end, counts[end])], end + 1)
  {
    var after := groups + [Group(end, end, counts[end])];
    var last := groups[|groups| - 1];
    RecordsStep(counts, end, end);
    RecordsStep(counts, last.first, end);
    forall i | 0 <= i < |after| - 1 ensures after[i + 1].first == after[i].last + 1 {
      if i < |groups| - 1 { assert groups[i + 1].first == groups[i].last + 1; }
    }
    forall i, b | 0 <= i < |after| && after[i].last + 1 < b <= end + 1 ensures !Fits(counts, limit, after[i].first, b) {
      assert i < |groups| && after[i] == groups[i];
      if b == end + 1 && i < |groups| - 1 {
        assert groups[i + 1].first == groups[i].last + 1;
        StillTooLong(counts, limit, groups[i].first, end, b);
      }
    }
  }

  /** The first prefix that holds anything begins the first group. */
  lemma FirstGroup(counts: seq<nat>, limit: nat, end: nat)
    requires Grouped(counts, limit, [], end) && end < |counts|
    ensures counts[end] > 0 ==> Grouped(counts, limit, [Group(end, end, counts[end])], end + 1)
    ensures counts[end] == 0 ==> Grouped(counts, limit, [], end + 1)
  {
    RecordsStep(counts, end, end);
    RecordsStep(counts, 0, end);
  }

  /** The groups once one more prefix is counted in. */
  function Counting(groups: seq<Group>, prefix: nat, here: nat, limit: nat): seq<Group> {
    if groups == [] then (if here == 0 then [] else [Group(prefix, prefix, here)])
    else
      var current := groups[|groups| - 1];
      if current.records + here > limit then groups + [Group(prefix, prefix, here)]
      else groups[..|groups| - 1] + [Group(current.first, prefix, current.records + here)]
  }

  lemma CountingGroups(counts: seq<nat>, limit: nat, groups: seq<Group>, prefix: nat)
    requires Grouped(counts, limit, groups, prefix) && prefix < |counts|
    ensures Grouped(counts, limit, Counting(groups, prefix, counts[prefix], limit), prefix + 1)
  {
    if groups == [] {
      FirstGroup(counts, limit, prefix);
    } else if groups[|groups| - 1].records + counts[prefix] > limit {
      Closed(counts, limit, groups, prefix);
    } else {
      assert groups[..|groups| - 1] + [groups[|groups| - 1]] == groups;
      Extended(counts, limit, groups[..|groups| - 1], groups[|groups| - 1], prefix);
    }
  }

  /** The groups closed so far, and the one still open. */
  function WithOpen(groups: seq<Group>, current: Group, open: bool): seq<Group> {
    if open then groups + [current] else groups
  }

  /** One turn of the grouping loop. */
  method CountIn(closed: seq<Group>, last: Group, was: bool, prefix: nat, here: nat, limit: nat)
    returns (groups: seq<Group>, current: Group, open: bool)
    requires !was ==> closed == []
    ensures WithOpen(groups, current, open) == Counting(WithOpen(closed, last, was), prefix, here, limit)
    ensures !open ==> groups == []
  {
    groups, current, open := closed, last, was;
    if here == 0 && !open { return; }
    if open && current.records + here > limit {
      groups := groups + [current];
      open := false;
    }
    if !open { current, open := Group(prefix, prefix, 0), true; }
    current := Group(current.first, prefix, current.records + here);
  }

  /** The grouping loop of `walk_distinct_keys`. */
  method GroupPrefixes(counts: seq<nat>, limit: nat) returns (groups: seq<Group>)
    ensures Grouped(counts, limit, groups, |counts|)
  {
    groups := [];
    var current, open := Group(0, 0, 0), false;
    var prefix := 0;
    while prefix < |counts|
      invariant prefix <= |counts| && (!open ==> groups == [])
      invariant Grouped(counts, limit, WithOpen(groups, current, open), prefix)
    {
      CountingGroups(counts, limit, WithOpen(groups, current, open), prefix);
      groups, current, open := CountIn(groups, current, open, prefix, counts[prefix], limit);
      prefix := prefix + 1;
    }
    if open { groups := groups + [current]; }
  }

  // ------------------------------------------------------------------
  // No grouping does with fewer
  // ------------------------------------------------------------------

  /** Ranges of prefixes that cover every prefix that is not empty, each within the limit. */
  ghost predicate Covering(counts: seq<nat>, limit: nat, ranges: seq<(nat, nat)>) {
    && (forall i :: 0 <= i < |ranges| ==> ranges[i].0 < ranges[i].1 <= |counts|)
    && (forall i :: 0 <= i < |ranges| ==> Records(counts, ranges[i].0, ranges[i].1) <= limit)
    && (forall i, j :: 0 <= i < j < |ranges| ==> ranges[i].1 <= ranges[j].0)
    && (forall p :: 0 <= p < |counts| && counts[p] > 0 ==> exists i :: 0 <= i < |ranges| && ranges[i].0 <= p < ranges[i].1)
  }

  lemma {:induction false} EmptyRange(counts: seq<nat>, a: nat, b: nat)
    requires a <= b <= |counts| && forall p :: a <= p < b ==> counts[p] == 0
    ensures Records(counts, a, b) == 0
    decreases b - a
  {
    if a < b { EmptyRange(counts, a, b - 1); }
  }

  /** Where each range begins, but the first at zero; then the end. */
  function Starts(counts: seq<nat>, ranges: seq<(nat, nat)>): (cuts: seq<nat>)
    ensures |cuts| == |ranges| + 1
  {
    seq(|ranges| + 1, i requires 0 <= i <= |ranges| => if i == |ranges| then |counts| else if i == 0 then 0 else ranges[i].0)
  }

  /** Nothing lies before a range and after the one before it, nor after it and before the next. */
  lemma NothingBetween(counts: seq<nat>, limit: nat, ranges: seq<(nat, nat)>, i: nat)
    requires Covering(counts, limit, ranges) && i < |ranges|
    ensures i == 0 ==> Records(counts, 0, ranges[0].0) == 0
    ensures var end := Starts(counts, ranges)[i + 1]; ranges[i].1 <= end <= |counts| && Records(counts, ranges[i].1, end) == 0
  {
    if i == 0 {
      forall p | 0 <= p < ranges[0].0 ensures counts[p] == 0 { NotCovered(counts, limit, ranges, 0, p); }
      EmptyRange(counts, 0, ranges[0].0);
    }
    var b, end := ranges[i].1, Starts(counts, ranges)[i + 1];
    if i + 1 < |ranges| { assert ranges[i].1 <= ranges[i + 1].0; }
    forall p | b <= p < end ensures counts[p] == 0 { NotCovered(counts, limit, ranges, i, p); }
    EmptyRange(counts, b, end);
  }

  lemma RunOfRange(counts: seq<nat>, limit: nat, ranges: seq<(nat, nat)>, i: nat)
    requires Covering(counts, limit, ranges) && i < |ranges|
    ensures var cuts := Starts(counts, ranges);
            cuts[i] < cuts[i + 1] <= |counts| && Fits(counts, limit, cuts[i], cuts[i + 1])
  {
    NothingBetween(counts, limit, ranges, i);
    var (a, b) := ranges[i];
    assert Records(counts, a, b) <= limit;
    var cuts := Starts(counts, ranges);
    assert cuts[i] == if i == 0 then 0 else a;
  }

  /** A prefix between the ranges is empty. */
  lemma NotCovered(counts: seq<nat>, limit: nat, ranges: seq<(nat, nat)>, i: nat, p: nat)
    requires Covering(counts, limit, ranges) && i < |ranges| && p < |counts|
    requires (i == 0 && p < ranges[0].0) || (ranges[i].1 <= p && (i + 1 < |ranges| ==> p < ranges[i + 1].0))
    ensures counts[p] == 0
  {
    forall j | 0 <= j < |ranges| ensures !(ranges[j].0 <= p < ranges[j].1) {
      if j < i {
        assert ranges[j].1 <= ranges[i].0;
      } else if j > i {
        assert ranges[i].1 <= ranges[j].0;
        if j > i + 1 { assert ranges[i + 1].1 <= ranges[j].0; }
      }
    }
  }

  function GroupCuts(counts: seq<nat>, groups: seq<Group>): (cuts: seq<nat>)
    ensures |cuts| == |groups| + 1
  {
    seq(|groups| + 1, i requires 0 <= i <= |groups| => if i == |groups| then |counts| else groups[i].first)
  }

  lemma StartsAreCuts(counts: seq<nat>, limit: nat, ranges: seq<(nat, nat)>)
    requires Covering(counts, limit, ranges) && ranges != []
    ensures Cuts(counts, limit, Starts(counts, ranges))
  {
    var cuts := Starts(counts, ranges);
    forall i {:trigger cuts[i]} | 0 <= i < |cuts| - 1
      ensures cuts[i] < cuts[i + 1] <= |counts| && Fits(counts, limit, cuts[i], cuts[i + 1])
    {
      RunOfRange(counts, limit, ranges, i);
    }
  }

  lemma CutEnds(counts: seq<nat>, limit: nat, groups: seq<Group>, i: nat)
    requires Grouped(counts, limit, groups, |counts|) && i < |groups|
    ensures GroupCuts(counts, groups)[i + 1] == groups[i].last + 1
  {
    if i < |groups| - 1 { assert groups[i + 1].first == groups[i].last + 1; }
  }

  lemma GroupsAreCuts(counts: seq<nat>, limit: nat, groups: seq<Group>)
    requires Grouped(counts, limit, groups, |counts|) && groups != []
    ensures Cuts(counts, limit, GroupCuts(counts, groups))
  {
    var cuts := GroupCuts(counts, groups);
    forall i {:trigger cuts[i]} | 0 <= i < |cuts| - 1
      ensures cuts[i] < cuts[i + 1] <= |counts| && Fits(counts, limit, cuts[i], cuts[i + 1])
    {
      CutEnds(counts, limit, groups, i);
      assert GroupOk(counts, limit, groups[i]);
    }
  }

  lemma GroupsAreLongest(counts: seq<nat>, limit: nat, groups: seq<Group>)
    requires Grouped(counts, limit, groups, |counts|) && groups != []
    ensures Longest(counts, limit, GroupCuts(counts, groups))
  {
    var cuts := GroupCuts(counts, groups);
    forall i, b | 0 <= i < |cuts| - 1 && cuts[i] <= cuts[i + 1] < b <= |counts| ensures !Fits(counts, limit, cuts[i], b) {
      CutEnds(counts, limit, groups, i);
    }
  }

  /** Prefix grouping is minimal: no covering by ranges that each fit has fewer of them. */
  lemma GroupingIsFewest(counts: seq<nat>, limit: nat, groups: seq<Group>, ranges: seq<(nat, nat)>)
    requires Grouped(counts, limit, groups, |counts|) && Covering(counts, limit, ranges)
    ensures |groups| <= |ranges|
  {
    if groups != [] {
      assert counts[groups[0].first] > 0;
      StartsAreCuts(counts, limit, ranges);
      GroupsAreCuts(counts, limit, groups);
      GroupsAreLongest(counts, limit, groups);
      GreedyIsFewest(counts, limit, GroupCuts(counts, groups), Starts(counts, ranges));
    }
  }

  lemma FirstIsFirst(counts: seq<nat>, limit: nat, a: seq<Group>, b: seq<Group>)
    requires Grouped(counts, limit, a, |counts|) && Grouped(counts, limit, b, |counts|) && a != []
    ensures b != [] && b[0].first <= a[0].first
  {
    assert GroupOk(counts, limit, a[0]);
    NonEmptyRecords(counts, 0, |counts|, a[0].first);
    if b != [] && a[0].first < b[0].first { NonEmptyRecords(counts, 0, b[0].first, a[0].first); }
  }

  /** The counts can be grouped in one way only. */
  lemma OneGrouping(counts: seq<nat>, limit: nat, a: seq<Group>, b: seq<Group>)
    requires Grouped(counts, limit, a, |counts|) && Grouped(counts, limit, b, |counts|)
    ensures a == b
  {
    if b != [] { FirstIsFirst(counts, limit, b, a); }
    if a != [] {
      FirstIsFirst(counts, limit, a, b);
      SameCuts(counts, limit, a, b);
      forall i | 0 <= i < |a| ensures a[i] == b[i] {
        CutEnds(counts, limit, a, i);
        CutEnds(counts, limit, b, i);
        assert GroupOk(counts, limit, a[i]) && GroupOk(counts, limit, b[i]);
        assert GroupCuts(counts, a)[i] == a[i].first && GroupCuts(counts, b)[i] == b[i].first;
      }
    }
  }

  lemma SameCuts(counts: seq<nat>, limit: nat, a: seq<Group>, b: seq<Group>)
    requires Grouped(counts, limit, a, |counts|) && Grouped(counts, limit, b, |counts|) && a != [] && b != []
    requires a[0].first == b[0].first
    ensures GroupCuts(counts, a) == GroupCuts(counts, b) && |a| == |b|
  {
    CutsAreGreedy(counts, limit, a);
    CutsAreGreedy(counts, limit, b);
  }

  lemma CutsAreGreedy(counts: seq<nat>, limit: nat, groups: seq<Group>)
    requires Grouped(counts, limit, groups, |counts|) && groups != []
    ensures groups[0].first <= |counts| && GroupCuts(counts, groups) == GreedyCuts(counts, limit, groups[0].first)
  {
    GroupsAreCuts(counts, limit, groups);
    GroupsAreLongest(counts, limit, groups);
    LongestRunsAreGreedy(counts, limit, GroupCuts(counts, groups));
  }

  ghost predicate InGroup(groups: seq<Group>, i: int, p: nat) {
    0 <= i < |groups| && groups[i].first <= p <= groups[i].last
  }

  /** Every prefix that holds anything is in exactly one group, and the groups' figures add up to all there is. */
  lemma GroupsCover(counts: seq<nat>, limit: nat, groups: seq<Group>, p: nat)
    requires Grouped(counts, limit, groups, |counts|) && p < |counts| && counts[p] > 0
    ensures exists i :: InGroup(groups, i, p)
    ensures forall i, j :: InGroup(groups, i, p) && InGroup(groups, j, p) ==> i == j
  {
    GroupsAscend(counts, limit, groups);
    if groups == [] {
      NonEmptyRecords(counts, 0, |counts|, p);
    } else {
      if p < groups[0].first { NonEmptyRecords(counts, 0, groups[0].first, p); }
      var i := FindGroup(counts, limit, groups, p, |groups| - 1);
      assert InGroup(groups, i, p);
    }
  }

  lemma NonEmptyRecords(counts: seq<nat>, a: nat, b: nat, p: nat)
    requires a <= p < b <= |counts| && counts[p] > 0
    ensures Records(counts, a, b) > 0
  {
    RecordsStep(counts, a, p);
    TotalGrows(counts, p + 1, b);
  }

  lemma {:induction false} GroupsAscendTo(counts: seq<nat>, limit: nat, groups: seq<Group>, i: nat, j: nat)
    requires Grouped(counts, limit, groups, |counts|) && i < j < |groups|
    ensures groups[i].last < groups[j].first
    decreases j
  {
    assert groups[j - 1 + 1].first == groups[j - 1].last + 1;
    if i < j - 1 { GroupsAscendTo(counts, limit, groups, i, j - 1); }
  }

  lemma GroupsAscend(counts: seq<nat>, limit: nat, groups: seq<Group>)
    requires Grouped(counts, limit, groups, |counts|)
    ensures forall i, j :: 0 <= i < j < |groups| ==> groups[i].last < groups[j].first
  {
    forall i, j | 0 <= i < j < |groups| ensures groups[i].last < groups[j].first {
      GroupsAscendTo(counts, limit, groups, i, j);
    }
  }

  lemma {:induction false} FindGroup(counts: seq<nat>, limit: nat, groups: seq<Group>, p: nat, j: nat) returns (i: nat)
    requires Grouped(counts, limit, groups, |counts|) && j < |groups| && groups[0].first <= p <= groups[j].last
    ensures i < |groups| && groups[i].first <= p <= groups[i].last
    decreases j
  {
    if groups[j].first <= p {
      i := j;
    } else {
      assert groups[j - 1 + 1].first == groups[j - 1].last + 1;
      i := FindGroup(counts, limit, groups, p, j - 1);
    }
  }
}
