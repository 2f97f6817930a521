/**
  How many passes a walk over the stored copies takes, and when it cannot be made within its budget.
*/
module Planning {
  import opened Basics
  import opened Checked
  import opened Partitioning
  import opened Hashing

  /** `early`: what is held before the planning pass, the sample and the counters; `overhead`: that and the list of
      groups, everything but the records. */
  datatype Options = Options(
    recordBytes: nat, early: nat, overhead: nat, headroom: nat, budget: nat,
    maxPasses: nat, maxFindings: nat, maxLocations: nat)

  ghost predicate OptionsOk(o: Options) {
    0 < o.recordBytes <= MAX64 && o.early <= o.overhead && o.budget <= MAX64
  }

  /** How many records a pass may hold; none when the budget does not hold the rest. */
  function PerPass(o: Options): nat
    requires o.recordBytes > 0
  {
    if o.overhead + o.headroom > o.budget then 0 else (o.budget - o.headroom - o.overhead) / o.recordBytes
  }

  /** No prefix has more records than this. */
  ghost predicate NoneAbove(copies: seq<Copy>, hash: Key -> nat, limit: nat) {
    forall p: nat :: |Within(copies, hash, p, p)| <= limit
  }

  ghost predicate GroupsWithin(groups: seq<Group>, limit: nat) {
    forall i :: 0 <= i < |groups| ==> groups[i].records <= limit
  }

  /** These groups are what the planning pass gives. */
  ghost predicate Planned(copies: seq<Copy>, hash: Key -> nat, limit: nat, groups: seq<Group>) {
    exists counts :: CountsOf(counts, copies, hash) && Grouped(counts, limit, groups, PREFIXES)
  }

  /** What a plan needs to be carried out: few enough passes, and no prefix that is too much for one. */
  ghost predicate Walkable(copies: seq<Copy>, hash: Key -> nat, o: Options, groups: seq<Group>)
    requires OptionsOk(o)
  {
    |groups| <= o.maxPasses && NoneAbove(copies, hash, PerPass(o))
  }

  /** There is one plan. */
  lemma OnePlan(copies: seq<Copy>, hash: Key -> nat, limit: nat, a: seq<Group>, b: seq<Group>)
    requires Planned(copies, hash, limit, a) && Planned(copies, hash, limit, b)
    ensures a == b
  {
    var x :| CountsOf(x, copies, hash) && Grouped(x, limit, a, PREFIXES);
    var y :| CountsOf(y, copies, hash) && Grouped(y, limit, b, PREFIXES);
    assert x == y;
    OneGrouping(x, limit, a, b);
  }

  /** Groups within the limit leave no prefix above it. */
  lemma GroupsAreLarge(copies: seq<Copy>, counts: seq<nat>, hash: Key -> nat, groups: seq<Group>, limit: nat)
    requires IsHash(hash) && CountsOf(counts, copies, hash) && Grouped(counts, limit, groups, PREFIXES)
    ensures GroupsWithin(groups, limit) ==> NoneAbove(copies, hash, limit)
  {
    if GroupsWithin(groups, limit) {
      forall p: nat ensures |Within(copies, hash, p, p)| <= limit {
        if p >= PREFIXES {
          NothingAbove(copies, hash, p);
        } else if counts[p] > 0 {
          PrefixInGroup(copies, counts, hash, groups, limit, p);
        }
      }
    }
  }

  lemma WhenAllFit(copies: seq<Copy>, counts: seq<nat>, hash: Key -> nat, groups: seq<Group>, limit: nat)
    requires IsHash(hash) && CountsOf(counts, copies, hash) && Grouped(counts, limit, groups, PREFIXES)
    ensures forall i :: 0 <= i < |groups| ==> groups[i].records <= |copies|
    ensures GroupsWithin(groups, limit) <==> NoneAbove(copies, hash, limit)
  {
    GroupsAreSmall(copies, counts, hash, groups, limit);
    GroupsAreLarge(copies, counts, hash, groups, limit);
  }

  lemma PrefixInGroup(copies: seq<Copy>, counts: seq<nat>, hash: Key -> nat, groups: seq<Group>, limit: nat, p: nat)
    requires CountsOf(counts, copies, hash) && Grouped(counts, limit, groups, PREFIXES) && p < PREFIXES && counts[p] > 0
    ensures exists i :: 0 <= i < |groups| && |Within(copies, hash, p, p)| <= groups[i].records
  {
    GroupsCover(counts, limit, groups, p);
    var i :| InGroup(groups, i, p);
    assert GroupOk(counts, limit, groups[i]);
    CountedIsCollected(counts, copies, hash, groups[i].first, groups[i].last);
    WithinPart(copies, hash, groups[i].first, groups[i].last, p);
  }

  /** A group holds no more records than there are, and more than the limit only as a single prefix. */
  lemma GroupsAreSmall(copies: seq<Copy>, counts: seq<nat>, hash: Key -> nat, groups: seq<Group>, limit: nat)
    requires CountsOf(counts, copies, hash) && Grouped(counts, limit, groups, PREFIXES)
    ensures forall i :: 0 <= i < |groups| ==> groups[i].records <= |copies|
    ensures NoneAbove(copies, hash, limit) ==> GroupsWithin(groups, limit)
  {
    forall i | 0 <= i < |groups|
      ensures groups[i].records <= |copies|
      ensures groups[i].records == |Within(copies, hash, groups[i].first, groups[i].last)|
      ensures groups[i].records > limit ==> groups[i].first == groups[i].last
    {
      assert GroupOk(counts, limit, groups[i]);
      CountedIsCollected(counts, copies, hash, groups[i].first, groups[i].last);
      WithinAtMost(copies, hash, groups[i].first, groups[i].last);
    }
  }

  // ------------------------------------------------------------------
  // The plan in terms of the hash and the budget alone
  // ------------------------------------------------------------------

  /** The budget holds so many records, and everything that is held besides. */
  predicate RoomFor(o: Options, records: nat) {
    records * o.recordBytes + o.overhead + o.headroom <= o.budget
  }

  /** How many copies have a hash in the `p`-th of 4096 equal ranges. */
  ghost function Load(copies: seq<Copy>, hash: Key -> nat, p: nat): nat { Holding(copies, hash, p, p + 1) }

  /** Some one of the 4096 equal ranges of the hash has more copies than a pass may hold. */
  ghost predicate Overfull(copies: seq<Copy>, hash: Key -> nat, o: Options) {
    exists p: nat :: p < 4096 && !RoomFor(o, Load(copies, hash, p))
  }

  /** Runs of those ranges that each fit in a pass and together have every copy. */
  ghost predicate Cover(copies: seq<Copy>, hash: Key -> nat, o: Options, runs: seq<(nat, nat)>) {
    && (forall i :: 0 <= i < |runs| ==> runs[i].0 < runs[i].1 <= 4096 && RoomFor(o, Holding(copies, hash, runs[i].0, runs[i].1)))
    && (forall i, j :: 0 <= i < j < |runs| ==> runs[i].1 <= runs[j].0)
    && (forall c :: c in copies ==> exists i :: 0 <= i < |runs| && Falls(hash, c.key, runs[i].0, runs[i].1))
  }

  ghost predicate Coverable(copies: seq<Copy>, hash: Key -> nat, o: Options, passes: nat) {
    exists runs :: |runs| <= passes && Cover(copies, hash, o, runs)
  }

  /** As few passes as will do. */
  ghost predicate Fewest(copies: seq<Copy>, hash: Key -> nat, o: Options, passes: nat) {
    Coverable(copies, hash, o, passes) && (passes > 0 ==> !Coverable(copies, hash, o, passes - 1))
  }

  lemma RoomByLimit(o: Options, records: nat)
    requires OptionsOk(o)
    ensures PerPass(o) > 0 <==> RoomFor(o, 1)
    ensures PerPass(o) > 0 ==> (RoomFor(o, records) <==> records <= PerPass(o))
  {
    if o.overhead + o.headroom <= o.budget {
      FitsWhenRecordsDo(records, o.recordBytes, o.overhead, o.headroom, o.budget);
      FitsWhenRecordsDo(1, o.recordBytes, o.overhead, o.headroom, o.budget);
    }
  }

  lemma OverfullByPrefix(copies: seq<Copy>, hash: Key -> nat, o: Options)
    requires IsHash(hash) && OptionsOk(o) && PerPass(o) > 0
    ensures Overfull(copies, hash, o) <==> !NoneAbove(copies, hash, PerPass(o))
  {
    if Overfull(copies, hash, o) {
      var p: nat :| p < 4096 && !RoomFor(o, Load(copies, hash, p));
      HoldingIs(copies, hash, p, p);
      RoomByLimit(o, Holding(copies, hash, p, p + 1));
      assert |Within(copies, hash, p, p)| > PerPass(o);
    } else {
      forall p: nat ensures |Within(copies, hash, p, p)| <= PerPass(o) {
        if p < 4096 {
          HoldingIs(copies, hash, p, p);
          assert RoomFor(o, Load(copies, hash, p));
          RoomByLimit(o, Holding(copies, hash, p, p + 1));
        } else {
          NothingAbove(copies, hash, p);
        }
      }
    }
  }

  /** A prefix that was counted has a copy, and a copy counts in its prefix. */
  lemma {:induction false} CopyUnder(copies: seq<Copy>, hash: Key -> nat, p: nat) returns (c: Copy)
    requires Within(copies, hash, p, p) != []
    ensures c in copies && Prefix(hash, c.key) == p
  {
    var init, last := copies[..|copies| - 1], copies[|copies| - 1];
    if Prefix(hash, last.key) == p {
      c := last;
    } else {
      c := CopyUnder(init, hash, p);
      assert c in init;
    }
  }

  lemma {:induction false} CopyCounts(copies: seq<Copy>, hash: Key -> nat, c: Copy)
    requires c in copies
    ensures Within(copies, hash, Prefix(hash, c.key), Prefix(hash, c.key)) != []
  {
    var init, last := copies[..|copies| - 1], copies[|copies| - 1];
    assert copies == init + [last];
    if c != last { CopyCounts(init, hash, c); }
  }

  lemma RunFits(copies: seq<Copy>, counts: seq<nat>, hash: Key -> nat, o: Options, a: nat, b: nat)
    requires OptionsOk(o) && PerPass(o) > 0 && CountsOf(counts, copies, hash) && a < b <= 4096 && RoomFor(o, Holding(copies, hash, a, b))
    ensures Records(counts, a, b) <= PerPass(o)
  {
    CountedIsCollected(counts, copies, hash, a, b - 1);
    HoldingIs(copies, hash, a, b - 1);
    RoomByLimit(o, Holding(copies, hash, a, b));
  }

  lemma RunHas(copies: seq<Copy>, counts: seq<nat>, hash: Key -> nat, o: Options, runs: seq<(nat, nat)>, p: nat)
    requires CountsOf(counts, copies, hash) && Cover(copies, hash, o, runs) && p < PREFIXES && counts[p] > 0
    ensures exists i :: 0 <= i < |runs| && runs[i].0 <= p < runs[i].1
  {
    var c := CopyUnder(copies, hash, p);
    var i :| 0 <= i < |runs| && Falls(hash, c.key, runs[i].0, runs[i].1);
    FallsByPrefix(hash, c.key, runs[i].0, runs[i].1);
  }

  lemma CoverIsCovering(copies: seq<Copy>, counts: seq<nat>, hash: Key -> nat, o: Options, runs: seq<(nat, nat)>)
    requires OptionsOk(o) && PerPass(o) > 0 && CountsOf(counts, copies, hash) && Cover(copies, hash, o, runs)
    ensures Covering(counts, PerPass(o), runs)
  {
    forall i | 0 <= i < |runs| ensures Records(counts, runs[i].0, runs[i].1) <= PerPass(o) {
      RunFits(copies, counts, hash, o, runs[i].0, runs[i].1);
    }
    forall p | 0 <= p < |counts| && counts[p] > 0 ensures exists i :: 0 <= i < |runs| && runs[i].0 <= p < runs[i].1 {
      RunHas(copies, counts, hash, o, runs, p);
    }
  }

  function Runs(groups: seq<Group>): (r: seq<(nat, nat)>)
    ensures |r| == |groups| && forall i :: 0 <= i < |groups| ==> r[i] == (groups[i].first, groups[i].last + 1)
  {
    seq(|groups|, i requires 0 <= i < |groups| => (groups[i].first, groups[i].last + 1))
  }

  lemma GroupsAreCover(copies: seq<Copy>, counts: seq<nat>, hash: Key -> nat, o: Options, groups: seq<Group>)
    requires IsHash(hash) && OptionsOk(o) && PerPass(o) > 0 && NoneAbove(copies, hash, PerPass(o))
    requires CountsOf(counts, copies, hash) && Grouped(counts, PerPass(o), groups, PREFIXES)
    ensures Cover(copies, hash, o, Runs(groups))
  {
    var runs := Runs(groups);
    GroupsAreSmall(copies, counts, hash, groups, PerPass(o));
    forall i | 0 <= i < |runs| ensures runs[i].0 < runs[i].1 <= 4096 && RoomFor(o, Holding(copies, hash, runs[i].0, runs[i].1)) {
      assert GroupOk(counts, PerPass(o), groups[i]);
      CountedIsCollected(counts, copies, hash, groups[i].first, groups[i].last);
      HoldingIs(copies, hash, groups[i].first, groups[i].last);
      RoomByLimit(o, groups[i].records);
    }
    GroupsAscend(counts, PerPass(o), groups);
    forall c | c in copies ensures exists i :: 0 <= i < |runs| && Falls(hash, c.key, runs[i].0, runs[i].1) {
      PrefixInRange(hash, c.key);
      CopyCounts(copies, hash, c);
      GroupsCover(counts, PerPass(o), groups, Prefix(hash, c.key));
      var i :| InGroup(groups, i, Prefix(hash, c.key));
      FallsByPrefix(hash, c.key, runs[i].0, runs[i].1);
    }
  }

  lemma FewerThanGroups(copies: seq<Copy>, counts: seq<nat>, hash: Key -> nat, o: Options, groups: seq<Group>, passes: nat)
    requires IsHash(hash) && OptionsOk(o) && PerPass(o) > 0 && CountsOf(counts, copies, hash) && Grouped(counts, PerPass(o), groups, PREFIXES)
    requires Coverable(copies, hash, o, passes)
    ensures |groups| <= passes
  {
    var runs :| |runs| <= passes && Cover(copies, hash, o, runs);
    CoverIsCovering(copies, counts, hash, o, runs);
    GroupingIsFewest(counts, PerPass(o), groups, runs);
  }

  /** The plan can be carried out exactly when no one of the 4096 ranges of the hash is overfull and the ranges can be
      taken in few enough passes; and it then takes as few passes as will do. */
  lemma WalkableExactly(copies: seq<Copy>, hash: Key -> nat, o: Options, groups: seq<Group>)
    requires IsHash(hash) && OptionsOk(o) && PerPass(o) > 0 && Planned(copies, hash, PerPass(o), groups)
    ensures Walkable(copies, hash, o, groups) <==> !Overfull(copies, hash, o) && Coverable(copies, hash, o, o.maxPasses)
    ensures !Overfull(copies, hash, o) ==> Fewest(copies, hash, o, |groups|)
  {
    var counts :| CountsOf(counts, copies, hash) && Grouped(counts, PerPass(o), groups, PREFIXES);
    OverfullByPrefix(copies, hash, o);
    if !Overfull(copies, hash, o) {
      GroupsAreCover(copies, counts, hash, o, groups);
      assert |Runs(groups)| == |groups|;
    }
    if Coverable(copies, hash, o, o.maxPasses) { FewerThanGroups(copies, counts, hash, o, groups, o.maxPasses); }
    if |groups| > 0 && Coverable(copies, hash, o, |groups| - 1) { FewerThanGroups(copies, counts, hash, o, groups, |groups| - 1); }
  }

  lemma NeedsMore(copies: seq<Copy>, hash: Key -> nat, o: Options, m: nat, n: nat)
    requires Coverable(copies, hash, o, m) && !Coverable(copies, hash, o, n)
    ensures n < m
  {
    var runs :| |runs| <= m && Cover(copies, hash, o, runs);
    assert |runs| > n;
  }

  /** There is one smallest number of passes. */
  lemma OneFewest(copies: seq<Copy>, hash: Key -> nat, o: Options, m: nat, n: nat)
    requires Fewest(copies, hash, o, m) && Fewest(copies, hash, o, n)
    ensures m == n
  {
    if m > 0 { NeedsMore(copies, hash, o, n, m - 1); }
    if n > 0 { NeedsMore(copies, hash, o, m, n - 1); }
  }
}
