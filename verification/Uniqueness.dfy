/**
  The bounded-memory check that no outpoint is stored twice: a planning pass, groups of hash
  prefixes that fit the budget, and one pass per group that collects, sorts and scans.
*/
module Uniqueness {
  import opened Basics
  import opened Checked
  import opened Greedy
  import opened Partitioning
  import opened Hashing
  import opened Planning
  import opened StoreState
  import opened Insertion
  import opened Retry
  import opened Deletion

  /** A pass sees every copy once, in any order. */
  ghost predicate SameCopies(a: seq<Copy>, b: seq<Copy>) { multiset(a) == multiset(b) }

  lemma TakeOut(b: seq<Copy>, x: Copy) returns (rest: seq<Copy>)
    requires x in b
    ensures multiset(rest) == multiset(b) - multiset{x} && Keys(b) == Keys(rest) + multiset{x.key}
  {
    var i :| 0 <= i < |b| && b[i] == x;
    rest := b[..i] + b[i + 1..];
    assert b == b[..i] + [x] + b[i + 1..];
    assert KeySeq(rest) == KeySeq(b)[..i] + KeySeq(b)[i + 1..];
    assert KeySeq(b) == KeySeq(b)[..i] + [x.key] + KeySeq(b)[i + 1..];
  }

  lemma {:induction false} SameKeys(a: seq<Copy>, b: seq<Copy>)
    requires multiset(a) == multiset(b)
    ensures Keys(a) == Keys(b) && |a| == |b|
    decreases |a|
  {
    assert |multiset(a)| == |a| && |multiset(b)| == |b|;
    if a != [] {
      var init, x := a[..|a| - 1], a[|a| - 1];
      assert a == init + [x];
      assert multiset(b)[x] > 0;
      var rest := TakeOut(b, x);
      assert multiset(init) == multiset(a) - multiset{x};
      SameKeys(init, rest);
      KeysSnoc(init, x);
    }
  }

  // ------------------------------------------------------------------
  // The planning pass
  // ------------------------------------------------------------------

  /** The planning pass: counters only, no records. */
  method CountPrefixes(copies: seq<Copy>, hash: Key -> nat) returns (counts: seq<nat>, total: nat)
    requires IsHash(hash)
    ensures CountsOf(counts, copies, hash) && total == |copies|
    ensures |counts| == 4096 && forall p: nat :: p < 4096 ==> counts[p] == Holding(copies, hash, p, p + 1)
  {
    var tally := new nat[PREFIXES](_ => 0);
    total := 0;
    while total < |copies|
      invariant total <= |copies| && CountsOf(tally[..], copies[..total], hash)
    {
      var c := copies[total];
      PrefixInRange(hash, c.key);
      assert copies[..total + 1] == copies[..total] + [c];
      forall p | 0 <= p < PREFIXES
        ensures |Within(copies[..total + 1], hash, p, p)| == |Within(copies[..total], hash, p, p)| + (if p == Prefix(hash, c.key) then 1 else 0)
      {
        WithinSnoc(copies[..total], c, hash, p, p);
      }
      tally[Prefix(hash, c.key)] := tally[Prefix(hash, c.key)] + 1;
      total := total + 1;
    }
    assert copies[..total] == copies;
    counts := tally[..];
    forall p: nat | p < 4096 ensures counts[p] == Holding(copies, hash, p, p + 1) { HoldingIs(copies, hash, p, p); }
  }

  // ------------------------------------------------------------------
  // One pass: collect, sort
  // ------------------------------------------------------------------

  method Collect(copies: seq<Copy>, hash: Key -> nat, g: Group) returns (records: seq<Copy>)
    ensures records == Within(copies, hash, g.first, g.last)
  {
    records := [];
    var i := 0;
    while i < |copies|
      invariant i <= |copies| && records == Within(copies[..i], hash, g.first, g.last)
    {
      var c := copies[i];
      WithinSnoc(copies[..i], c, hash, g.first, g.last);
      assert copies[..i + 1] == copies[..i] + [c];
      if g.first <= Prefix(hash, c.key) <= g.last { records := records + [c]; }
      i := i + 1;
    }
    assert copies[..i] == copies;
  }

  /** The order of the sort: key, then class, then generation. */
  predicate AtMost(a: Copy, b: Copy) {
    a.key < b.key || (a.key == b.key && (a.cls < b.cls || (a.cls == b.cls && a.generation <= b.generation)))
  }

  ghost predicate Sorted(s: seq<Copy>) {
    forall i, j :: 0 <= i < j < |s| ==> AtMost(s[i], s[j])
  }

  lemma SortedWith(before: seq<Copy>, c: Copy, after: seq<Copy>)
    requires Sorted(before + after) && (forall j :: 0 <= j < |before| ==> AtMost(before[j], c))
    requires after != [] ==> !AtMost(after[0], c)
    ensures Sorted(before + [c] + after)
  {
    var was, now := before + after, before + [c] + after;
    forall j | 0 <= j < |after| ensures AtMost(c, after[j]) {
      assert was[|before|] == after[0] && was[|before| + j] == after[j];
    }
    forall i, j | 0 <= i < j < |now| ensures AtMost(now[i], now[j]) {
      if i != |before| && j != |before| {
        assert now[i] == was[if i < |before| then i else i - 1] && now[j] == was[if j < |before| then j else j - 1];
      }
    }
  }

  /** One more record, at its place. */
  method Place(s: seq<Copy>, c: Copy) returns (more: seq<Copy>)
    requires Sorted(s)
    ensures Sorted(more) && multiset(more) == multiset(s) + multiset{c}
  {
    var i := 0;
    while i < |s| && AtMost(s[i], c)
      invariant i <= |s| && forall j :: 0 <= j < i ==> AtMost(s[j], c)
    {
      i := i + 1;
    }
    assert s == s[..i] + s[i..];
    SortedWith(s[..i], c, s[i..]);
    more := s[..i] + [c] + s[i..];
  }

  method Sort(records: seq<Copy>) returns (s: seq<Copy>)
    ensures Sorted(s) && multiset(s) == multiset(records)
  {
    s := [];
    var n := 0;
    while n < |records|
      invariant n <= |records| && Sorted(s) && multiset(s) == multiset(records[..n])
    {
      s := Place(s, records[n]);
      assert records[..n + 1] == records[..n] + [records[n]];
      n := n + 1;
    }
    assert records[..n] == records;
  }

  // ------------------------------------------------------------------
  // What is reported
  // ------------------------------------------------------------------

  datatype Finding = Finding(key: Key, multiplicity: nat, locations: seq<Copy>, omitted: nat)

  /** The keys that occur, and those that occur more than once. */
  function Support(m: multiset<Key>): set<Key> { set k | k in m }

  function Multiple(m: multiset<Key>): set<Key> { set k | k in m && m[k] > 1 }

  lemma OneKeyMore(m: multiset<Key>, k: Key, n: nat)
    requires m[k] == 0 && n > 0
    ensures |m[k := n]| == |m| + n
    ensures |Support(m[k := n])| == |Support(m)| + 1
    ensures |Multiple(m[k := n])| == |Multiple(m)| + (if n > 1 then 1 else 0)
  {
    var more := m[k := n];
    assert Support(more) == Support(m) + {k};
    assert Multiple(more) == if n > 1 then Multiple(m) + {k} else Multiple(m);
  }

  /** Each finding is a key that occurs more than once, with its multiplicity; and where copies of it are stored, in
      the fixed order of class and generation, as many as are asked for. */
  ghost predicate FindingOk(f: Finding, m: multiset<Key>, stored: multiset<Copy>, cap: nat) {
    && f.multiplicity == m[f.key] && f.multiplicity > 1
    && |f.locations| == (if f.multiplicity <= cap then f.multiplicity else cap) && |f.locations| + f.omitted == f.multiplicity
    && Sorted(f.locations) && multiset(f.locations) <= stored
    && forall i :: 0 <= i < |f.locations| ==> f.locations[i].key == f.key
  }

  ghost predicate FindingsOk(fs: seq<Finding>, m: multiset<Key>, stored: multiset<Copy>, cap: nat) {
    && (forall i :: 0 <= i < |fs| ==> FindingOk(fs[i], m, stored, cap))
    && (forall i, j :: 0 <= i < j < |fs| ==> fs[i].key != fs[j].key)
  }

  lemma FindingsGrow(fs: seq<Finding>, m: multiset<Key>, stored: multiset<Copy>, cap: nat, k: Key, n: nat)
    requires FindingsOk(fs, m, stored, cap) && m[k] == 0
    ensures FindingsOk(fs, m[k := n], stored, cap) && forall i :: 0 <= i < |fs| ==> fs[i].key != k
  {
    forall i | 0 <= i < |fs| ensures FindingOk(fs[i], m[k := n], stored, cap) && fs[i].key != k {
      assert FindingOk(fs[i], m, stored, cap);
    }
  }

  /** The first copies of a run, as a finding. */
  lemma DescribedOk(copies: seq<Copy>, m: multiset<Key>, stored: multiset<Copy>, cap: nat)
    requires |copies| > 1 && Sorted(copies) && multiset(copies) <= stored && m[copies[0].key] == |copies|
    requires forall i :: 0 <= i < |copies| ==> copies[i].key == copies[0].key
    ensures FindingOk(Described(copies, cap), m, stored, cap)
  {
    var kept := |Described(copies, cap).locations|;
    assert copies == copies[..kept] + copies[kept..];
    assert multiset(copies) == multiset(copies[..kept]) + multiset(copies[kept..]);
  }

  class Tally {
    const maxFindings: nat
    const maxLocations: nat
    ghost const stored: multiset<Copy>
    var distinct: nat            // distinct_outpoints
    var physical: nat            // physical_entries
    var repeated: nat            // keys_with_multiple_copies
    var extra: nat               // duplicate_copies
    var most: nat                // max_copies_for_one_key
    var findings: seq<Finding>

    /** The fields describe exactly these keys, each as often as it occurs. */
    ghost predicate Describes(m: multiset<Key>)
      reads this
    {
      && distinct == |Support(m)| && physical == |m| && repeated == |Multiple(m)| && extra + distinct == physical
      && MostOf(m, most)
      && FindingsOk(findings, m, stored, maxLocations) && |findings| == if repeated <= maxFindings then repeated else maxFindings
    }

    constructor (maxFindings: nat, maxLocations: nat, ghost stored: multiset<Copy>)
      ensures Describes(multiset{}) && this.maxFindings == maxFindings && this.maxLocations == maxLocations && this.stored == stored
    {
      this.maxFindings, this.maxLocations, this.stored := maxFindings, maxLocations, stored;
      distinct, physical, repeated, extra, most, findings := 0, 0, 0, 0, 0, [];
      new;
      assert Support(multiset{}) == {} && Multiple(multiset{}) == {};
    }

    /** `on_distinct`. */
    method OnDistinct(multiplicity: nat)
      requires multiplicity > 0
      modifies this`distinct, this`physical, this`repeated, this`extra, this`most
      ensures distinct == old(distinct) + 1 && physical == old(physical) + multiplicity
      ensures repeated == old(repeated) + (if multiplicity > 1 then 1 else 0)
      ensures extra == old(extra) + multiplicity - 1
      ensures most == if old(most) < multiplicity then multiplicity else old(most)
    {
      distinct := distinct + 1;
      physical := physical + multiplicity;
      if multiplicity > 1 {
        repeated := repeated + 1;
        extra := extra + (multiplicity - 1);
      }
      most := if most < multiplicity then multiplicity else most;
    }

    /** `on_group`: a sample, and no more than the cap. */
    method OnGroup(copies: seq<Copy>)
      requires |copies| > 1
      modifies this`findings
      ensures findings == if |old(findings)| >= maxFindings then old(findings)
                          else old(findings) + [Described(copies, maxLocations)]
    {
      if |findings| >= maxFindings { return; }
      var kept := if |copies| <= maxLocations then |copies| else maxLocations;
      findings := findings + [Finding(copies[0].key, |copies|, copies[..kept], |copies| - kept)];
    }

    /** One key, with all its copies. */
    method Report(copies: seq<Copy>, ghost m: multiset<Key>)
      requires |copies| > 0 && Describes(m) && m[copies[0].key] == 0
      requires forall i :: 0 <= i < |copies| ==> copies[i].key == copies[0].key
      requires Sorted(copies) && multiset(copies) <= stored
      modifies this
      ensures Describes(m[copies[0].key := |copies|])
    {
      ghost var k := copies[0].key;
      OneKeyMore(m, k, |copies|);
      FindingsGrow(findings, m, stored, maxLocations, k, |copies|);
      OnDistinct(|copies|);
      if |copies| > 1 {
        DescribedOk(copies, m[k := |copies|], stored, maxLocations);
        OnGroup(copies);
      }
      MostStays(m, m[k := |copies|], k, |copies|, old(most));
    }
  }

  function Described(copies: seq<Copy>, cap: nat): Finding
    requires |copies| > 0
  {
    var kept := if |copies| <= cap then |copies| else cap;
    Finding(copies[0].key, |copies|, copies[..kept], |copies| - kept)
  }

  /** The largest multiplicity; zero when there is no key. */
  ghost predicate MostOf(m: multiset<Key>, most: nat) {
    (forall k :: m[k] <= most) && (most > 0 ==> exists k :: m[k] == most)
  }

  lemma MostStays(m: multiset<Key>, more: multiset<Key>, k: Key, n: nat, before: nat)
    requires m[k] == 0 && n > 0 && MostOf(m, before) && more == m[k := n]
    ensures MostOf(more, if before < n then n else before)
  {
    if before < n {
      assert more[k] == n;
    } else {
      var x :| m[x] == before;
      assert more[x] == before;
    }
  }

  // ------------------------------------------------------------------
  // The scan of one sorted group
  // ------------------------------------------------------------------

  /** Up to `i`, whole runs of equal keys were reported. */
  ghost predicate AtRun(records: seq<Copy>, i: nat) {
    i <= |records| && forall p, q :: 0 <= p < i <= q < |records| ==> records[p].key < records[q].key
  }

  lemma RunCounts(records: seq<Copy>, i: nat, j: nat, m: multiset<Key>)
    requires Sorted(records) && AtRun(records, i) && i < j <= |records| && AtRun(records, j)
    requires forall p :: i <= p < j ==> records[p].key == records[i].key
    requires m[records[i].key] == 0
    ensures (m + Keys(records[..i]))[records[i].key] == 0
    ensures m + Keys(records[..j]) == (m + Keys(records[..i]))[records[i].key := j - i]
  {
    var k := records[i].key;
    var before, run := KeySeq(records[..i]), KeySeq(records[i..j]);
    assert KeySeq(records[..j]) == before + run;
    assert k !in before;
    AllTheSame(run, k);
  }

  lemma {:induction false} AllTheSame(s: seq<Key>, k: Key)
    requires forall p :: 0 <= p < |s| ==> s[p] == k
    ensures forall x :: multiset(s)[x] == if x == k then |s| else 0
  {
    if s != [] {
      assert s == s[..|s| - 1] + [s[|s| - 1]];
      AllTheSame(s[..|s| - 1], k);
    }
  }

  /** One run of the scan. */
  method ScanRun(records: seq<Copy>, i: nat, tally: Tally, ghost m: multiset<Key>, ghost seen: multiset<Key>)
    returns (j: nat, ghost next: multiset<Key>)
    requires Sorted(records) && AtRun(records, i) && i < |records| && seen == m + Keys(records[..i]) && tally.Describes(seen)
    requires m[records[i].key] == 0 && multiset(records) <= tally.stored
    modifies tally
    ensures i < j <= |records| && AtRun(records, j) && next == m + Keys(records[..j]) && tally.Describes(next)
  {
    j := NextRun(records, i);
    RunCounts(records, i, j, m);
    var run := records[i..j];
    RunIsStored(records, i, j, run);
    tally.Report(run, seen);
    next := seen[records[i].key := j - i];
  }

  lemma RunIsStored(records: seq<Copy>, i: nat, j: nat, run: seq<Copy>)
    requires Sorted(records) && i < j <= |records| && run == records[i..j]
    requires forall p :: i <= p < j ==> records[p].key == records[i].key
    ensures |run| == j - i && run[0].key == records[i].key && Sorted(run) && multiset(run) <= multiset(records)
    ensures forall p :: 0 <= p < |run| ==> run[p].key == run[0].key
  {
    assert records == records[..i] + run + records[j..];
    assert multiset(records) == multiset(records[..i]) + multiset(run) + multiset(records[j..]);
  }

  /** The scan: every run of equal keys, once. */
  method Scan(records: seq<Copy>, tally: Tally, ghost m: multiset<Key>)
    requires Sorted(records) && tally.Describes(m) && multiset(records) <= tally.stored
    requires forall p :: 0 <= p < |records| ==> m[records[p].key] == 0
    modifies tally
    ensures tally.Describes(m + Keys(records))
  {
    var i := 0;
    ghost var seen := m;
    assert m + Keys(records[..0]) == m;
    while i < |records|
      invariant AtRun(records, i) && seen == m + Keys(records[..i]) && tally.Describes(seen)
    {
      i, seen := ScanRun(records, i, tally, m, seen);
    }
    assert records[..i] == records;
  }

  /** Where the run of equal keys that begins at `i` ends. */
  method NextRun(records: seq<Copy>, i: nat) returns (j: nat)
    requires Sorted(records) && AtRun(records, i) && i < |records|
    ensures i < j <= |records| && AtRun(records, j)
    ensures forall p :: i <= p < j ==> records[p].key == records[i].key
  {
    j := i + 1;
    while j < |records| && records[j].key == records[i].key
      invariant i < j <= |records| && forall p :: i <= p < j ==> records[p].key == records[i].key
    {
      j := j + 1;
    }
    forall p, q | 0 <= p < j <= q < |records| ensures records[p].key < records[q].key {
      if j < |records| {
        assert AtMost(records[i], records[j]) && (j == q || AtMost(records[j], records[q]));
      }
    }
  }

  // ------------------------------------------------------------------
  // The whole verification
  // ------------------------------------------------------------------

  datatype Verdict = Verdict(
    unique: bool, physical: nat, distinct: nat, extra: nat, repeated: nat, most: nat,
    findings: seq<Finding>, omitted: nat, dataPasses: nat, examined: nat)

  /** The first `g` groups are reported: their keys, as often as they occur, and no other. */
  ghost predicate Covered(m: multiset<Key>, all: multiset<Key>, hash: Key -> nat, groups: seq<Group>, g: nat) {
    g <= |groups| && forall k :: m[k] == if g > 0 && Prefix(hash, k) <= groups[g - 1].last then all[k] else 0
  }

  lemma EmptyRun(counts: seq<nat>, copies: seq<Copy>, hash: Key -> nat, end: nat, k: Key)
    requires CountsOf(counts, copies, hash) && end <= PREFIXES && Records(counts, 0, end) == 0 && Prefix(hash, k) < end
    ensures Keys(copies)[k] == 0
  {
    CountedIsCollected(counts, copies, hash, 0, end - 1);
    WithinKeys(copies, hash, 0, end - 1, k);
  }

  /** One more group. */
  lemma CoveredOn(counts: seq<nat>, copies: seq<Copy>, hash: Key -> nat, groups: seq<Group>, limit: nat, g: nat,
                  m: multiset<Key>, records: seq<Copy>)
    requires CountsOf(counts, copies, hash) && Grouped(counts, limit, groups, PREFIXES) && g < |groups|
    requires Covered(m, Keys(copies), hash, groups, g)
    requires forall k :: Keys(records)[k] == if groups[g].first <= Prefix(hash, k) <= groups[g].last then Keys(copies)[k] else 0
    ensures Covered(m + Keys(records), Keys(copies), hash, groups, g + 1)
    ensures forall p :: 0 <= p < |records| ==> m[records[p].key] == 0
  {
    if g > 0 { assert groups[g - 1 + 1].first == groups[g - 1].last + 1; }
    forall k ensures (m + Keys(records))[k] == if Prefix(hash, k) <= groups[g].last then Keys(copies)[k] else 0 {
      if g == 0 && Prefix(hash, k) < groups[0].first { EmptyRun(counts, copies, hash, groups[0].first, k); }
    }
    forall p | 0 <= p < |records| ensures m[records[p].key] == 0 {
      assert KeySeq(records)[p] == records[p].key;
      assert Keys(records)[records[p].key] > 0;
    }
  }

  lemma CoveredAll(counts: seq<nat>, copies: seq<Copy>, hash: Key -> nat, groups: seq<Group>, limit: nat, m: multiset<Key>)
    requires IsHash(hash) && CountsOf(counts, copies, hash) && Grouped(counts, limit, groups, PREFIXES)
    requires Covered(m, Keys(copies), hash, groups, |groups|)
    ensures m == Keys(copies)
  {
    forall k ensures m[k] == Keys(copies)[k] {
      PrefixInRange(hash, k);
      if groups == [] { EmptyRun(counts, copies, hash, PREFIXES, k); }
    }
  }

  /** What a pass in any order collects for a group. */
  lemma CollectedKeys(copies: seq<Copy>, order: seq<Copy>, hash: Key -> nat, a: nat, b: nat)
    requires SameCopies(order, copies)
    ensures forall k :: Keys(Within(order, hash, a, b))[k] == if a <= Prefix(hash, k) <= b then Keys(copies)[k] else 0
    ensures |Within(order, hash, a, b)| == |Within(copies, hash, a, b)|
  {
    SameKeys(order, copies);
    forall k ensures Keys(Within(order, hash, a, b))[k] == Keys(Within(copies, hash, a, b))[k]
                     == if a <= Prefix(hash, k) <= b then Keys(copies)[k] else 0
    {
      WithinKeys(order, hash, a, b, k);
      WithinKeys(copies, hash, a, b, k);
    }
    assert Keys(Within(order, hash, a, b)) == Keys(Within(copies, hash, a, b));
    assert |Keys(Within(order, hash, a, b))| == |KeySeq(Within(order, hash, a, b))|;
    assert |Keys(Within(copies, hash, a, b))| == |KeySeq(Within(copies, hash, a, b))|;
  }

  lemma {:induction false} WithinStored(copies: seq<Copy>, hash: Key -> nat, a: nat, b: nat)
    ensures multiset(Within(copies, hash, a, b)) <= multiset(copies)
  {
    if copies != [] {
      assert copies == copies[..|copies| - 1] + [copies[|copies| - 1]];
      WithinStored(copies[..|copies| - 1], hash, a, b);
    }
  }

  /** One pass: collect, sort, scan. A pass that finds another number of records than was planned is refused. */
  method OnePass(order: seq<Copy>, hash: Key -> nat, g: Group, tally: Tally, ghost m: multiset<Key>, ghost all: seq<Copy>)
    returns (ok: bool, ghost next: multiset<Key>)
    requires SameCopies(order, all) && tally.Describes(m) && tally.stored == multiset(all)
    requires forall k :: m[k] > 0 ==> !(g.first <= Prefix(hash, k) <= g.last)
    modifies tally
    ensures ok <==> g.records == |Within(all, hash, g.first, g.last)|
    ensures ok ==> tally.Describes(next) && next == m + Keys(Within(order, hash, g.first, g.last))
  {
    var records := Collect(order, hash, g);
    CollectedKeys(all, order, hash, g.first, g.last);
    ok, next := |records| == g.records, m;
    if !ok { return; }
    var sorted := Sort(records);
    SameKeys(sorted, records);
    WithinStored(order, hash, g.first, g.last);
    forall p | 0 <= p < |sorted| ensures m[sorted[p].key] == 0 {
      assert KeySeq(sorted)[p] == sorted[p].key;
      assert Keys(sorted)[sorted[p].key] > 0;
    }
    Scan(sorted, tally, m);
    next := m + Keys(sorted);
  }

  /** Every group fits; checked before the first collecting pass. */
  method AllFit(groups: seq<Group>, o: Options) returns (fit: bool)
    requires OptionsOk(o) && o.overhead + o.headroom <= o.budget && forall i :: 0 <= i < |groups| ==> groups[i].records <= MAX64
    ensures fit <==> GroupsWithin(groups, PerPass(o))
  {
    var i := 0;
    while i < |groups|
      invariant i <= |groups| && forall j :: 0 <= j < i ==> groups[j].records <= PerPass(o)
    {
      var fits, peak := FitsInBudget(groups[i].records, o.recordBytes, o.overhead, o.headroom, o.budget);
      FitsWhenRecordsDo(groups[i].records, o.recordBytes, o.overhead, o.headroom, o.budget);
      if !fits { return false; }
      i := i + 1;
    }
    fit := true;
  }

  /** The passes over the groups from `g` on. */
  ghost predicate Walking(copies: seq<Copy>, counts: seq<nat>, hash: Key -> nat, groups: seq<Group>, limit: nat, g: nat,
                          tally: Tally, m: multiset<Key>)
    reads tally
  {
    && CountsOf(counts, copies, hash) && Grouped(counts, limit, groups, PREFIXES)
    && Covered(m, Keys(copies), hash, groups, g) && tally.Describes(m) && tally.stored == multiset(copies)
  }

  /** One group's pass. */
  method WalkGroup(copies: seq<Copy>, order: seq<Copy>, counts: seq<nat>, hash: Key -> nat, groups: seq<Group>, limit: nat, g: nat,
                   tally: Tally, ghost m: multiset<Key>)
    returns (ok: bool, ghost next: multiset<Key>)
    requires SameCopies(order, copies) && g < |groups| && Walking(copies, counts, hash, groups, limit, g, tally, m)
    modifies tally
    ensures ok && Walking(copies, counts, hash, groups, limit, g + 1, tally, next)
  {
    if g > 0 { assert groups[g - 1 + 1].first == groups[g - 1].last + 1; }
    assert GroupOk(counts, limit, groups[g]);
    CountedIsCollected(counts, copies, hash, groups[g].first, groups[g].last);
    CollectedKeys(copies, order, hash, groups[g].first, groups[g].last);
    ok, next := OnePass(order, hash, groups[g], tally, m, copies);
    CoveredOn(counts, copies, hash, groups, limit, g, m, Within(order, hash, groups[g].first, groups[g].last));
  }

  /** Every file opened in these passes. Pass 0 is the planning pass. */
  ghost predicate AllOpened(visits: nat -> Option<Error>, from: nat, to: nat) {
    forall i :: from <= i < to ==> visits(i).None?
  }

  /** The error of the first pass that met a file which would not open. */
  function FirstRefusal(visits: nat -> Option<Error>, from: nat, to: nat): (e: Option<Error>)
    requires from <= to
    ensures e.None? <==> AllOpened(visits, from, to)
    decreases if from <= to then to - from else 0
  {
    if from == to then None else if visits(from).Some? then visits(from) else FirstRefusal(visits, from + 1, to)
  }

  lemma {:induction false} RefusedHere(visits: nat -> Option<Error>, from: nat, at: nat, to: nat)
    requires from <= at < to && visits(at).Some? && AllOpened(visits, from, at)
    ensures FirstRefusal(visits, from, to) == visits(at)
    decreases at - from
  {
    if from < at {
      assert visits(from).None?;
      RefusedHere(visits, from + 1, at, to);
    }
  }

  /** One pass over every file. */
  method VisitAll(copies: seq<Copy>, order: seq<Copy>, counts: seq<nat>, hash: Key -> nat, groups: seq<Group>,
                  limit: nat, g: nat, tally: Tally, ghost m: multiset<Key>)
    returns (seen: nat, ghost next: multiset<Key>)
    requires SameCopies(order, copies) && g < |groups| && Walking(copies, counts, hash, groups, limit, g, tally, m)
    modifies tally
    ensures seen == |copies| && Walking(copies, counts, hash, groups, limit, g + 1, tally, next)
  {
    var ok;
    ok, next := WalkGroup(copies, order, counts, hash, groups, limit, g, tally, m);
    SameKeys(order, copies);
    seen := |order|;
  }

  /** One pass per group, up to the first that meets a file which does not open. */
  method WalkUntil(copies: seq<Copy>, orders: nat -> seq<Copy>, visits: nat -> Option<Error>, counts: seq<nat>, hash: Key -> nat,
                   groups: seq<Group>, limit: nat, tally: Tally)
    returns (g: nat, examined: nat, ghost m: multiset<Key>)
    requires (forall i :: SameCopies(orders(i), copies)) && Walking(copies, counts, hash, groups, limit, 0, tally, multiset{})
    modifies tally
    ensures g <= |groups| && Walking(copies, counts, hash, groups, limit, g, tally, m) && examined == |copies| * g
    ensures AllOpened(visits, 1, g + 1) && (g < |groups| ==> visits(g + 1).Some?)
  {
    g, examined, m := 0, 0, multiset{};
    while g < |groups| && visits(g + 1).None?
      invariant g <= |groups| && Covered(m, Keys(copies), hash, groups, g) && tally.Describes(m)
      invariant examined == |copies| * g && AllOpened(visits, 1, g + 1)
    {
      g, examined, m := VisitNext(copies, orders(g), visits, counts, hash, groups, limit, g, examined, tally, m);
    }
  }

  lemma OneMoreOpened(visits: nat -> Option<Error>, from: nat, to: nat)
    requires AllOpened(visits, from, to) && visits(to).None?
    ensures AllOpened(visits, from, to + 1)
  {
  }

  method VisitNext(copies: seq<Copy>, order: seq<Copy>, ghost visits: nat -> Option<Error>, counts: seq<nat>, hash: Key -> nat, groups: seq<Group>,
                   limit: nat, g: nat, examined: nat, tally: Tally, ghost m: multiset<Key>)
    returns (next: nat, seen: nat, ghost all: multiset<Key>)
    requires SameCopies(order, copies) && g < |groups| && examined == |copies| * g
    requires Walking(copies, counts, hash, groups, limit, g, tally, m) && AllOpened(visits, 1, g + 1) && visits(g + 1).None?
    modifies tally
    ensures next == g + 1 && seen == |copies| * next && Walking(copies, counts, hash, groups, limit, next, tally, all)
    ensures AllOpened(visits, 1, next + 1)
  {
    OneMoreOpened(visits, 1, g + 1);
    seen, all := VisitAll(copies, order, counts, hash, groups, limit, g, tally, m);
    OnceMore(|copies|, g);
    next, seen := g + 1, examined + seen;
  }

  lemma OnceMore(n: nat, g: nat)
    ensures n * (g + 1) == n * g + n
  {
  }

  /** `walk_distinct_keys`, after the planning. */
  method WalkGroups(copies: seq<Copy>, orders: nat -> seq<Copy>, visits: nat -> Option<Error>, counts: seq<nat>, hash: Key -> nat,
                    groups: seq<Group>, limit: nat, tally: Tally)
    returns (refusal: Option<Error>, examined: nat)
    requires (forall i :: SameCopies(orders(i), copies)) && IsHash(hash) && Walking(copies, counts, hash, groups, limit, 0, tally, multiset{})
    modifies tally
    ensures refusal == FirstRefusal(visits, 1, |groups| + 1)
    ensures refusal.None? ==> tally.Describes(Keys(copies)) && examined == |copies| * |groups|
  {
    var g;
    ghost var m;
    g, examined, m := WalkUntil(copies, orders, visits, counts, hash, groups, limit, tally);
    if g < |groups| {
      RefusedHere(visits, 1, g + 1, |groups| + 1);
      return visits(g + 1), examined;
    }
    CoveredAll(counts, copies, hash, groups, limit, m);
    refusal := None;
  }

  /** The true figures of what is stored. */
  ghost predicate Exact(v: Verdict, copies: seq<Copy>, o: Options) {
    var m := Keys(copies);
    && v.physical == |m| && v.distinct == |Support(m)| && v.extra == |m| - |Support(m)|
    && v.repeated == |Multiple(m)| && MostOf(m, v.most)
    && (v.unique <==> forall k :: m[k] <= 1)
    && |v.findings| + v.omitted == v.repeated && FindingsOk(v.findings, m, multiset(copies), o.maxLocations)
    && |v.findings| == (if v.repeated <= o.maxFindings then v.repeated else o.maxFindings)
    && v.examined == |m| * (1 + v.dataPasses)
  }

  /** What is settled before the first collecting pass. */
  ghost predicate PlanAnswers(copies: seq<Copy>, hash: Key -> nat, o: Options, visits: nat -> Option<Error>, plan: Result<seq<Group>>)
    requires OptionsOk(o)
  {
    if o.early + o.headroom > o.budget then plan == Err(InsufficientSpace)
    else if visits(0).Some? then plan == Err(visits(0).value)
    else if PerPass(o) == 0 then plan == Err(InsufficientSpace)
    else exists groups :: Planned(copies, hash, PerPass(o), groups)
                          && plan == if Walkable(copies, hash, o, groups) then Ok(groups) else Err(InsufficientSpace)
  }

  /** The planning pass, and everything that is settled before the first collecting one. */
  method PlanPasses(copies: seq<Copy>, hash: Key -> nat, o: Options, visits: nat -> Option<Error>)
    returns (plan: Result<seq<Group>>, counts: seq<nat>, total: nat)
    requires IsHash(hash) && OptionsOk(o) && |copies| <= MAX64
    ensures plan.Ok? ==> total == |copies| && CountsOf(counts, copies, hash) && Grouped(counts, PerPass(o), plan.value, PREFIXES)
    ensures PlanAnswers(copies, hash, o, visits, plan)
  {
    counts, total := [], 0;
    if o.early + o.headroom > o.budget { return Err(InsufficientSpace), counts, total; }
    if visits(0).Some? { return Err(visits(0).value), counts, total; }
    counts, total := CountPrefixes(copies, hash);
    if o.overhead + o.headroom > o.budget { return Err(InsufficientSpace), counts, total; }
    var perPass := (o.budget - o.headroom - o.overhead) / o.recordBytes;
    if perPass == 0 { return Err(InsufficientSpace), counts, total; }
    var groups := GroupPrefixes(counts, perPass);
    assert Planned(copies, hash, perPass, groups);
    if |groups| > o.maxPasses { return Err(InsufficientSpace), counts, total; }
    WhenAllFit(copies, counts, hash, groups, perPass);
    var fit := AllFit(groups, o);
    if !fit { return Err(InsufficientSpace), counts, total; }
    plan := Ok(groups);
  }

  /** The passes of a plan that was accepted, and the verdict they add up to. */
  method WalkPlan(copies: seq<Copy>, orders: nat -> seq<Copy>, visits: nat -> Option<Error>, counts: seq<nat>, total: nat,
                  hash: Key -> nat, o: Options, groups: seq<Group>)
    returns (r: Result<Verdict>)
    requires (forall i :: SameCopies(orders(i), copies)) && IsHash(hash) && OptionsOk(o) && total == |copies|
    requires CountsOf(counts, copies, hash) && Grouped(counts, PerPass(o), groups, PREFIXES)
    ensures r.Ok? ==> Exact(r.value, copies, o) && r.value.dataPasses == |groups|
    ensures match FirstRefusal(visits, 1, |groups| + 1) case None => r.Ok? case Some(e) => r == Err(e)
  {
    var tally := new Tally(o.maxFindings, o.maxLocations, multiset(copies));
    var refusal, examined := WalkGroups(copies, orders, visits, counts, hash, groups, PerPass(o), tally);
    if refusal.Some? { return Err(refusal.value); }
    ghost var m := Keys(copies);
    assert |m| == |KeySeq(copies)|;
    Distinctly(m);
    TotalPasses(|copies|, |groups|);
    r := Ok(Verdict(tally.extra == 0, tally.physical, tally.distinct, tally.extra, tally.repeated, tally.most,
                    tally.findings, tally.repeated - |tally.findings|, |groups|, total + examined));
  }

  /** What the whole verification answers: a refusal before any collecting pass, the error of the first pass that could
      not open a file, or a verdict from as many passes as the plan has groups. */
  ghost predicate VerifyAnswers(copies: seq<Copy>, hash: Key -> nat, o: Options, visits: nat -> Option<Error>, r: Result<Verdict>)
    requires OptionsOk(o)
  {
    if o.early + o.headroom > o.budget then r == Err(InsufficientSpace)
    else if visits(0).Some? then r == Err(visits(0).value)
    else if PerPass(o) == 0 then r == Err(InsufficientSpace)
    else exists groups :: Planned(copies, hash, PerPass(o), groups) && PassesAnswer(copies, hash, o, visits, groups, r)
  }

  ghost predicate PassesAnswer(copies: seq<Copy>, hash: Key -> nat, o: Options, visits: nat -> Option<Error>, groups: seq<Group>, r: Result<Verdict>)
    requires OptionsOk(o)
  {
    if !Walkable(copies, hash, o, groups) then r == Err(InsufficientSpace)
    else match FirstRefusal(visits, 1, |groups| + 1)
         case Some(e) => r == Err(e)
         case None => r.Ok? && r.value.dataPasses == |groups|
  }

  /** The same, told without the plan: by how many copies have a hash in each of 4096 equal ranges, how many of those a
      pass has room for, and which passes meet a file that does not open. */
  ghost predicate RangesAnswer(copies: seq<Copy>, hash: Key -> nat, o: Options, visits: nat -> Option<Error>, r: Result<Verdict>) {
    if o.early + o.headroom > o.budget then r == Err(InsufficientSpace)
    else if visits(0).Some? then r == Err(visits(0).value)
    else if !RoomFor(o, 1) || Overfull(copies, hash, o) || !Coverable(copies, hash, o, o.maxPasses) then r == Err(InsufficientSpace)
    else exists passes: nat :: Fewest(copies, hash, o, passes) && OverPasses(visits, passes, r)
  }

  /** The first collecting pass to meet a file that does not open is what a walk of so many passes answers. */
  ghost predicate OverPasses(visits: nat -> Option<Error>, passes: nat, r: Result<Verdict>) {
    && (r.Ok? <==> forall i: nat :: 1 <= i <= passes ==> visits(i).None?)
    && (r.Ok? ==> r.value.dataPasses == passes)
    && (r.Err? ==> exists i: nat :: 1 <= i <= passes && visits(i) == Some(r.error) && forall j: nat :: 1 <= j < i ==> visits(j).None?)
  }

  lemma {:induction false} FirstIsFirst(visits: nat -> Option<Error>, from: nat, to: nat) returns (i: nat)
    requires from <= to && FirstRefusal(visits, from, to).Some?
    ensures from <= i < to && visits(i) == FirstRefusal(visits, from, to) && (forall j: nat :: from <= j < i ==> visits(j).None?)
    decreases if from <= to then to - from else 0
  {
    i := from;
    if visits(from).None? { i := FirstIsFirst(visits, from + 1, to); }
  }

  lemma FirstOverPasses(visits: nat -> Option<Error>, passes: nat, r: Result<Verdict>)
    requires match FirstRefusal(visits, 1, passes + 1) case Some(e) => r == Err(e) case None => r.Ok? && r.value.dataPasses == passes
    ensures OverPasses(visits, passes, r)
  {
    if FirstRefusal(visits, 1, passes + 1).Some? { var i := FirstIsFirst(visits, 1, passes + 1); }
  }

  lemma AnswersByRanges(copies: seq<Copy>, hash: Key -> nat, o: Options, visits: nat -> Option<Error>, r: Result<Verdict>)
    requires IsHash(hash) && OptionsOk(o) && VerifyAnswers(copies, hash, o, visits, r)
    ensures RangesAnswer(copies, hash, o, visits, r)
  {
    RoomByLimit(o, 1);
    if o.early + o.headroom <= o.budget && visits(0).None? && RoomFor(o, 1) {
      var groups :| Planned(copies, hash, PerPass(o), groups) && PassesAnswer(copies, hash, o, visits, groups, r);
      WalkableExactly(copies, hash, o, groups);
      if Walkable(copies, hash, o, groups) { FirstOverPasses(visits, |groups|, r); }
    }
  }

  /** `verify_unique_outpoints`: for any hash, any budget, any order of visiting and any file that will not open in any
      pass, the exact figures with one pass per planned group, or a refusal. It is refused if and only if the budget
      does not hold what the walk needs besides records or holds no record, a pass meets a file that does not open,
      one prefix has more records than a pass may hold, or the plan has more groups than passes are allowed. */
  method Verify(copies: seq<Copy>, orders: nat -> seq<Copy>, visits: nat -> Option<Error>, hash: Key -> nat, o: Options)
    returns (r: Result<Verdict>)
    requires (forall i :: SameCopies(orders(i), copies)) && IsHash(hash) && OptionsOk(o) && |copies| <= MAX64
    ensures r.Ok? ==> Exact(r.value, copies, o)
    ensures VerifyAnswers(copies, hash, o, visits, r)
    ensures RangesAnswer(copies, hash, o, visits, r)
  {
    var plan, counts, total := PlanPasses(copies, hash, o, visits);
    if plan.Err? {
      r := Err(plan.error);
    } else {
      r := WalkPlan(copies, orders, visits, counts, total, hash, o, plan.value);
      assert PassesAnswer(copies, hash, o, visits, plan.value, r);
    }
    AnswersByRanges(copies, hash, o, visits, r);
  }

  lemma TotalPasses(n: nat, g: nat)
    ensures n + n * g == n * (1 + g)
  {
  }

  /** There are as many keys as copies exactly when none occurs twice. */
  lemma {:induction false} Distinctly(m: multiset<Key>)
    ensures |Support(m)| <= |m|
    ensures |Support(m)| == |m| <==> forall k :: m[k] <= 1
    decreases |m|
  {
    if m == multiset{} {
      assert Support(m) == {};
    } else {
      var k :| k in m;
      var rest := m[k := 0];
      Distinctly(rest);
      assert Support(m) == Support(rest) + {k};
      assert |m| == |rest| + m[k];
      if |Support(m)| == |m| {
        forall x ensures m[x] <= 1 { if x != k { assert rest[x] <= 1; } }
      }
      if forall x :: m[x] <= 1 {
        assert forall x :: rest[x] <= m[x];
      }
    }
  }

  // ------------------------------------------------------------------
  // What the verdict says of a store
  // ------------------------------------------------------------------

  function FileOf(c: Copy): File { File(c.cls, c.generation) }

  /** `visit_stored_entries`: every entry of every version, once. */
  ghost predicate Visits(copies: seq<Copy>, files: Files) {
    && (forall i, j :: 0 <= i < j < |copies| ==> copies[i].key != copies[j].key || FileOf(copies[i]) != FileOf(copies[j]))
    && (forall i :: 0 <= i < |copies| ==> Stores(files, FileOf(copies[i]), copies[i].key))
    && (forall f, k :: Stores(files, f, k) ==> exists i :: Visited(copies, i, f, k))
  }

  ghost predicate Visited(copies: seq<Copy>, i: int, f: File, k: Key) {
    0 <= i < |copies| && FileOf(copies[i]) == f && copies[i].key == k
  }

  lemma {:induction false} FindTwo(s: seq<Key>, k: Key) returns (p: nat, q: nat)
    requires multiset(s)[k] >= 2
    ensures p < q < |s| && s[p] == k && s[q] == k
  {
    var n := |s| - 1;
    assert s == s[..n] + [s[n]];
    if s[n] == k {
      assert multiset(s[..n])[k] >= 1;
      q := n;
      p :| 0 <= p < n && s[..n][p] == k;
    } else {
      p, q := FindTwo(s[..n], k);
    }
  }

  lemma TwoFiles(copies: seq<Copy>, files: Files, k: Key)
    requires Visits(copies, files) && Keys(copies)[k] > 1
    ensures !AtMostOnce(files)
  {
    var p, q := FindTwo(KeySeq(copies), k);
    assert Stores(files, FileOf(copies[p]), k) && Stores(files, FileOf(copies[q]), k);
    assert FileOf(copies[p]) != FileOf(copies[q]);
  }

  /** The verdict is the uniqueness a caller is served: no key in two versions. */
  lemma UniqueMeansOnce(copies: seq<Copy>, files: Files, v: Verdict, o: Options)
    requires Visits(copies, files) && Exact(v, copies, o)
    ensures v.unique <==> AtMostOnce(files)
  {
    var ks := KeySeq(copies);
    forall k | Keys(copies)[k] > 1 ensures !AtMostOnce(files) { TwoFiles(copies, files, k); }
    if v.unique {
      forall f, g, k | Stores(files, f, k) && Stores(files, g, k) ensures f == g {
        var i :| Visited(copies, i, f, k);
        var j :| Visited(copies, j, g, k);
        if i < j { CountTwice(ks, i, j); }
        if j < i { CountTwice(ks, j, i); }
      }
    }
  }
}
