/**
  The prefixes of a hash: which stored copies fall under which, and how many.
*/
module Hashing {
  import opened Basics
  import opened Checked
  import opened Partitioning

  /** `planning_prefixes`, twelve bits of a sixty-four-bit hash. */
  const PREFIXES: nat := 4096
  const SHIFT: nat := 0x10_0000_0000_0000

  /** One stored copy of one outpoint. */
  datatype Copy = Copy(key: Key, cls: nat, generation: nat, active: bool)

  /** `prefix_of`: the top bits of the hash. */
  function Prefix(hash: Key -> nat, k: Key): nat { hash(k) / SHIFT }

  ghost predicate IsHash(hash: Key -> nat) {
    forall k :: hash(k) <= MAX64
  }

  lemma PrefixInRange(hash: Key -> nat, k: Key)
    requires IsHash(hash)
    ensures Prefix(hash, k) < PREFIXES
  {
    assert hash(k) <= MAX64;
  }

  function KeySeq(copies: seq<Copy>): (r: seq<Key>)
    ensures |r| == |copies|
  {
    seq(|copies|, i requires 0 <= i < |copies| => copies[i].key)
  }

  /** The keys of some copies, each as often as it occurs. */
  function Keys(copies: seq<Copy>): multiset<Key> { multiset(KeySeq(copies)) }

  /** The copies whose key has a prefix from `a` to `b`. */
  function Within(copies: seq<Copy>, hash: Key -> nat, a: nat, b: nat): seq<Copy> {
    if copies == [] then []
    else
      var before, last := Within(copies[..|copies| - 1], hash, a, b), copies[|copies| - 1];
      if a <= Prefix(hash, last.key) <= b then before + [last] else before
  }

  lemma KeysSnoc(copies: seq<Copy>, c: Copy)
    ensures Keys(copies + [c]) == Keys(copies) + multiset{c.key}
  {
    assert KeySeq(copies + [c]) == KeySeq(copies) + [c.key];
  }

  /** A group holds every copy of the keys it holds, and no other. */
  lemma {:induction false} WithinKeys(copies: seq<Copy>, hash: Key -> nat, a: nat, b: nat, k: Key)
    ensures Keys(Within(copies, hash, a, b))[k] == if a <= Prefix(hash, k) <= b then Keys(copies)[k] else 0
  {
    if copies != [] {
      var init, last := copies[..|copies| - 1], copies[|copies| - 1];
      WithinKeys(init, hash, a, b, k);
      assert copies == init + [last];
      KeysSnoc(init, last);
      KeysSnoc(Within(init, hash, a, b), last);
    }
  }

  ghost predicate CountsOf(counts: seq<nat>, copies: seq<Copy>, hash: Key -> nat) {
    |counts| == PREFIXES && forall p :: 0 <= p < PREFIXES ==> counts[p] == |Within(copies, hash, p, p)|
  }

  lemma WithinSnoc(copies: seq<Copy>, c: Copy, hash: Key -> nat, a: nat, b: nat)
    ensures Within(copies + [c], hash, a, b) == Within(copies, hash, a, b) + (if a <= Prefix(hash, c.key) <= b then [c] else [])
  {
    assert (copies + [c])[..|copies|] == copies;
  }

  /** What the planning pass counted for a run of prefixes is what a collecting pass finds there. */
  lemma {:induction false} CountedIsCollected(counts: seq<nat>, copies: seq<Copy>, hash: Key -> nat, a: nat, b: nat)
    requires CountsOf(counts, copies, hash) && a <= b < PREFIXES
    ensures Records(counts, a, b + 1) == |Within(copies, hash, a, b)|
    decreases b - a
  {
    RecordsStep(counts, a, b);
    if a == b {
    } else {
      CountedIsCollected(counts, copies, hash, a, b - 1);
      WithinSplits(copies, hash, a, b);
    }
  }

  lemma {:induction false} WithinSplits(copies: seq<Copy>, hash: Key -> nat, a: nat, b: nat)
    requires a < b
    ensures |Within(copies, hash, a, b)| == |Within(copies, hash, a, b - 1)| + |Within(copies, hash, b, b)|
  {
    if copies != [] { WithinSplits(copies[..|copies| - 1], hash, a, b); }
  }

  lemma {:induction false} WithinPart(copies: seq<Copy>, hash: Key -> nat, a: nat, b: nat, p: nat)
    requires a <= p <= b
    ensures |Within(copies, hash, p, p)| <= |Within(copies, hash, a, b)|
  {
    if copies != [] { WithinPart(copies[..|copies| - 1], hash, a, b, p); }
  }

  lemma {:induction false} NothingAbove(copies: seq<Copy>, hash: Key -> nat, p: nat)
    requires IsHash(hash) && p >= PREFIXES
    ensures Within(copies, hash, p, p) == []
  {
    if copies != [] {
      NothingAbove(copies[..|copies| - 1], hash, p);
      PrefixInRange(hash, copies[|copies| - 1].key);
    }
  }

  lemma WithinAtMost(copies: seq<Copy>, hash: Key -> nat, a: nat, b: nat)
    ensures |Within(copies, hash, a, b)| <= |copies|
  {
  }

  // ------------------------------------------------------------------
  // The same in terms of the hash alone
  // ------------------------------------------------------------------

  /** The hash lies in the ranges from `a` up to `b`, of the 4096 that are 2^52 wide. */
  predicate Falls(hash: Key -> nat, k: Key, a: nat, b: nat) {
    a * 0x10_0000_0000_0000 <= hash(k) < b * 0x10_0000_0000_0000
  }

  ghost function Falling(copies: seq<Copy>, hash: Key -> nat, a: nat, b: nat): set<int> {
    set i | 0 <= i < |copies| && Falls(hash, copies[i].key, a, b)
  }

  /** How many copies have a hash there. */
  ghost function Holding(copies: seq<Copy>, hash: Key -> nat, a: nat, b: nat): nat { |Falling(copies, hash, a, b)| }

  lemma FallsByPrefix(hash: Key -> nat, k: Key, a: nat, b: nat)
    ensures Falls(hash, k, a, b) <==> a <= Prefix(hash, k) < b
  {
  }

  lemma HoldingSnoc(copies: seq<Copy>, c: Copy, hash: Key -> nat, a: nat, b: nat)
    ensures Holding(copies + [c], hash, a, b) == Holding(copies, hash, a, b) + if Falls(hash, c.key, a, b) then 1 else 0
  {
    var more := copies + [c];
    var before, after := Falling(copies, hash, a, b), Falling(more, hash, a, b);
    assert forall i :: 0 <= i < |copies| ==> more[i] == copies[i];
    assert after == before + if Falls(hash, c.key, a, b) then {|copies|} else {};
  }

  /** The copies under some prefixes are those whose hash lies in their ranges. */
  lemma {:induction false} HoldingIs(copies: seq<Copy>, hash: Key -> nat, a: nat, b: nat)
    ensures Holding(copies, hash, a, b + 1) == |Within(copies, hash, a, b)|
    decreases |copies|
  {
    if copies == [] {
      assert Falling(copies, hash, a, b + 1) == {};
    } else {
      var init, last := copies[..|copies| - 1], copies[|copies| - 1];
      assert copies == init + [last];
      HoldingIs(init, hash, a, b);
      HoldingSnoc(init, last, hash, a, b + 1);
      FallsByPrefix(hash, last.key, a, b + 1);
    }
  }
}
