/**
  The bytes of a merge record (`encode_merge_plan`, `decode_merge_plan`): what it takes to be read
  back, and why a record with one damaged byte never is.
*/
module Sidecar {
  import opened Basics
  import opened Disk
  import opened Recovery
  import opened Checked

  type Byte = b: nat | b < 256

  /** The record as the two ends see it. The identifier is two words. */
  datatype Stored = Stored(container: nat, target: nat, high: nat, low: nat, sources: seq<nat>)

  const MAGIC: seq<Byte> := [0x55, 0x5A, 0x4D, 0x47]
  const FORMAT: nat := 2
  const HEADER: nat := 48
  const TRAILER: nat := 4

  /** Every number of the record is a sixty-four-bit word. */
  predicate Wordly(s: Stored) {
    && s.container <= MAX64 && s.target <= MAX64 && s.high <= MAX64 && s.low <= MAX64
    && |s.sources| <= MAX64
    && forall i :: 0 <= i < |s.sources| ==> s.sources[i] <= MAX64
  }

  // ------------------------------------------------------------------
  // Little-endian words
  // ------------------------------------------------------------------

  function Word(n: nat, width: nat): (r: seq<Byte>)
    ensures |r| == width
  {
    if width == 0 then [] else [n % 256] + Word(n / 256, width - 1)
  }

  function Value(bytes: seq<Byte>): nat {
    if bytes == [] then 0 else bytes[0] + 256 * Value(bytes[1..])
  }

  function Power(width: nat): nat {
    if width == 0 then 1 else 256 * Power(width - 1)
  }

  lemma {:induction false} WordHasValue(n: nat, width: nat)
    requires n < Power(width)
    ensures Value(Word(n, width)) == n
  {
    if width > 0 {
      WordHasValue(n / 256, width - 1);
      assert Word(n, width)[1..] == Word(n / 256, width - 1);
    }
  }

  lemma {:induction false} ValueDetermines(a: seq<Byte>, b: seq<Byte>)
    requires |a| == |b| && Value(a) == Value(b)
    ensures a == b
  {
    if a != [] {
      assert a[0] == Value(a) % 256 && b[0] == Value(b) % 256;
      ValueDetermines(a[1..], b[1..]);
      assert a == [a[0]] + a[1..] && b == [b[0]] + b[1..];
    }
  }

  lemma Widths()
    ensures Power(2) == 0x1_0000 && Power(4) == 0x1_0000_0000 && Power(8) == MAX64 + 1
  {
    assert Power(4) == 256 * (256 * (256 * (256 * Power(0))));
    assert Power(8) == 256 * (256 * (256 * (256 * Power(4))));
  }

  // ------------------------------------------------------------------
  // The checksum
  // ------------------------------------------------------------------

  const WORD32: nat := 0x1_0000_0000
  const PRIME: nat := 16777619

  /** Exclusive or of two numbers of `width` bits. */
  function Xor(a: nat, b: nat, width: nat): nat {
    if width == 0 then 0 else (a % 2 + b % 2) % 2 + 2 * Xor(a / 2, b / 2, width - 1)
  }

  function Bits(width: nat): nat {
    if width == 0 then 1 else 2 * Bits(width - 1)
  }

  lemma {:induction false} XorIsBounded(a: nat, b: nat, width: nat)
    ensures Xor(a, b, width) < Bits(width)
  {
    if width > 0 { XorIsBounded(a / 2, b / 2, width - 1); }
  }

  /** A byte meets only the low byte of the hash. */
  function LowByte(hash: nat, b: Byte): (r: nat)
    ensures r < 256
  {
    assert Bits(8) == 256;
    XorIsBounded(hash % 256, b, 8);
    Xor(hash % 256, b, 8)
  }

  function Multiply(word: nat): nat { word * PRIME % WORD32 }

  function Mix(hash: nat, b: Byte): nat { Multiply(hash / 256 * 256 + LowByte(hash, b)) }

  function Sum(bytes: seq<Byte>): (r: nat)
    ensures r < WORD32
  {
    if bytes == [] then 2166136261 else Mix(Sum(bytes[..|bytes| - 1]), bytes[|bytes| - 1])
  }

  /** `checksum`. */
  method Checksum(bytes: seq<Byte>) returns (hash: nat)
    ensures hash == Sum(bytes)
  {
    hash := 2166136261;
    var i := 0;
    while i < |bytes|
      invariant 0 <= i <= |bytes|
      invariant hash == Sum(bytes[..i])
    {
      assert bytes[..i + 1][..i] == bytes[..i];
      hash := Mix(hash, bytes[i]);
      i := i + 1;
    }
    assert bytes[..i] == bytes;
  }

  lemma {:induction false} XorIsInjective(a: nat, b: nat, c: nat, d: nat, width: nat)
    requires a < Bits(width) && b < Bits(width) && c < Bits(width) && d < Bits(width)
    requires Xor(a, b, width) == Xor(c, d, width)
    ensures a == c <==> b == d
  {
    if width > 0 {
      var t, u := Xor(a / 2, b / 2, width - 1), Xor(c / 2, d / 2, width - 1);
      OneBit(a % 2, b % 2, c % 2, d % 2, t, u);
      XorIsInjective(a / 2, b / 2, c / 2, d / 2, width - 1);
      HalvesDetermine(a, c);
      HalvesDetermine(b, d);
    }
  }

  lemma OneBit(p: nat, q: nat, r: nat, s: nat, t: nat, u: nat)
    requires p < 2 && q < 2 && r < 2 && s < 2
    requires (p + q) % 2 + 2 * t == (r + s) % 2 + 2 * u
    ensures t == u && (p == r <==> q == s)
  {
    assert p in {0, 1} && q in {0, 1} && r in {0, 1} && s in {0, 1};
  }

  lemma HalvesDetermine(a: nat, c: nat)
    ensures a == c <==> a / 2 == c / 2 && a % 2 == c % 2
  {
  }

  /** The multiplier is odd: 899433627 undoes it, and 3513497 is what is carried out of the word. */
  lemma MultiplyIsInjective(x: nat, y: nat)
    requires x < WORD32 && y < WORD32 && Multiply(x) == Multiply(y)
    ensures x == y
  {
    var p, q := x * PRIME / WORD32, y * PRIME / WORD32;
    assert (x - y) * PRIME == (p - q) * WORD32;
    var m := (p - q) * 899433627 - (x - y) * 3513497;
    assert x - y == m * WORD32;
  }

  lemma LowBytesDetermine(u: nat, x: nat, v: nat, y: nat)
    requires x < 256 && y < 256 && u * 256 + x == v * 256 + y
    ensures u == v && x == y
  {
  }

  lemma MixKeepsItsParts(g: nat, a: Byte, h: nat, b: Byte)
    requires g < WORD32 && h < WORD32 && Mix(g, a) == Mix(h, b)
    ensures g / 256 == h / 256 && LowByte(g, a) == LowByte(h, b)
  {
    var x, y := LowByte(g, a), LowByte(h, b);
    HighPartFits(g, x);
    HighPartFits(h, y);
    MultiplyIsInjective(g / 256 * 256 + x, h / 256 * 256 + y);
    LowBytesDetermine(g / 256, x, h / 256, y);
  }

  lemma MixIsInjective(g: nat, a: Byte, h: nat, b: Byte)
    requires g < WORD32 && h < WORD32 && Mix(g, a) == Mix(h, b)
    ensures g == h <==> a == b
  {
    assert Bits(8) == 256;
    MixKeepsItsParts(g, a, h, b);
    XorIsInjective(g % 256, a, h % 256, b, 8);
    SplitDetermines(g, h);
  }

  lemma SplitDetermines(g: nat, h: nat)
    ensures g == h <==> g / 256 == h / 256 && g % 256 == h % 256
  {
  }

  lemma HighPartFits(g: nat, x: nat)
    requires g < WORD32 && x < 256
    ensures g / 256 * 256 + x < WORD32
  {
  }

  /** Two strings that differ in one byte have different sums. */
  lemma {:induction false} SumSeesTheByte(a: seq<Byte>, b: seq<Byte>, i: nat)
    requires |a| == |b| && i < |a| && a[i] != b[i]
    requires forall j :: 0 <= j < |a| && j != i ==> a[j] == b[j]
    ensures Sum(a) != Sum(b)
  {
    var n := |a| - 1;
    if i < n {
      SumSeesTheByte(a[..n], b[..n], i);
      if Sum(a) == Sum(b) { MixIsInjective(Sum(a[..n]), a[n], Sum(b[..n]), b[n]); }
    } else {
      assert a[..n] == b[..n];
      if Sum(a) == Sum(b) { MixIsInjective(Sum(a[..n]), a[n], Sum(b[..n]), b[n]); }
    }
  }

  // ------------------------------------------------------------------
  // What a string of bytes spells
  // ------------------------------------------------------------------

  predicate Field(bytes: seq<Byte>, at: nat, width: nat, n: nat) {
    at + width <= |bytes| && Value(bytes[at..at + width]) == n
  }

  predicate Header(bytes: seq<Byte>, s: Stored) {
    && |bytes| >= HEADER
    && bytes[..4] == MAGIC
    && Field(bytes, 4, 2, FORMAT) && Field(bytes, 6, 2, 0)
    && Field(bytes, 8, 8, s.container) && Field(bytes, 16, 8, s.target)
    && Field(bytes, 24, 8, s.high) && Field(bytes, 32, 8, s.low)
    && Field(bytes, 40, 8, |s.sources|)
  }

  predicate Names(bytes: seq<Byte>, sources: seq<nat>) {
    forall i :: 0 <= i < |sources| ==> Field(bytes, HEADER + 8 * i, 8, sources[i])
  }

  predicate Sealed(bytes: seq<Byte>) {
    |bytes| >= TRAILER && Field(bytes, |bytes| - TRAILER, TRAILER, Sum(bytes[..|bytes| - TRAILER]))
  }

  /** The record `s`, byte for byte. */
  predicate Spells(bytes: seq<Byte>, s: Stored) {
    && |bytes| == HEADER + 8 * |s.sources| + TRAILER
    && Header(bytes, s) && Names(bytes, s.sources) && Sealed(bytes)
  }

  /** A plan a recovery may act on. `widest` is the largest value of the platform's size type. */
  predicate Sensible(s: Stored, widest: nat) {
    && s.container <= widest && s.target <= widest
    && (forall i :: 0 <= i < |s.sources| ==> s.sources[i] <= widest)
    && 0 < |s.sources| <= MAX_SOURCES
    && !(s.high == 0 && s.low == 0)
    && s.target !in s.sources
    && Ascending(s.sources)
  }

  lemma FieldStays(a: seq<Byte>, b: seq<Byte>, at: nat, width: nat, n: nat)
    requires a <= b && Field(a, at, width, n)
    ensures Field(b, at, width, n)
  {
    assert a[at..at + width] == b[at..at + width];
  }

  lemma NamesStay(a: seq<Byte>, b: seq<Byte>, sources: seq<nat>)
    requires a <= b && Names(a, sources)
    ensures Names(b, sources)
  {
    forall i | 0 <= i < |sources| ensures Field(b, HEADER + 8 * i, 8, sources[i]) {
      FieldStays(a, b, HEADER + 8 * i, 8, sources[i]);
    }
  }

  lemma HeaderStays(a: seq<Byte>, b: seq<Byte>, s: Stored)
    requires a <= b && Header(a, s)
    ensures Header(b, s)
  {
    FieldStays(a, b, 4, 2, FORMAT);
    FieldStays(a, b, 6, 2, 0);
    FieldStays(a, b, 8, 8, s.container);
    FieldStays(a, b, 16, 8, s.target);
    FieldStays(a, b, 24, 8, s.high);
    FieldStays(a, b, 32, 8, s.low);
    FieldStays(a, b, 40, 8, |s.sources|);
    assert a[..4] == b[..4];
  }

  // ------------------------------------------------------------------
  // Writing
  // ------------------------------------------------------------------

  /** `put`. */
  method Put(out: seq<Byte>, n: nat, width: nat) returns (more: seq<Byte>)
    requires n < Power(width)
    ensures |more| == |out| + width && out <= more && Field(more, |out|, width, n)
  {
    WordHasValue(n, width);
    more := out + Word(n, width);
    assert more[|out|..|out| + width] == Word(n, width);
  }

  method PutHeader(s: Stored) returns (out: seq<Byte>)
    requires Wordly(s)
    ensures |out| == HEADER && Header(out, s)
  {
    Widths();
    var magic := MAGIC;
    var format := Put(magic, FORMAT, 2);
    var reserved := Put(format, 0, 2);
    var container := Put(reserved, s.container, 8);
    var target := Put(container, s.target, 8);
    var high := Put(target, s.high, 8);
    var low := Put(high, s.low, 8);
    out := Put(low, |s.sources|, 8);
    FieldStays(format, out, 4, 2, FORMAT);
    FieldStays(reserved, out, 6, 2, 0);
    FieldStays(container, out, 8, 8, s.container);
    FieldStays(target, out, 16, 8, s.target);
    FieldStays(high, out, 24, 8, s.high);
    FieldStays(low, out, 32, 8, s.low);
    assert magic == out[..4];
  }

  /** `encode_merge_plan`. */
  method Encode(s: Stored) returns (out: seq<Byte>)
    requires Wordly(s)
    ensures Spells(out, s)
  {
    Widths();
    out := PutHeader(s);
    var i := 0;
    while i < |s.sources|
      invariant 0 <= i <= |s.sources|
      invariant |out| == HEADER + 8 * i && Header(out, s) && Names(out, s.sources[..i])
    {
      ghost var before := out;
      out := Put(out, s.sources[i], 8);
      HeaderStays(before, out, s);
      NamesStay(before, out, s.sources[..i]);
      i := i + 1;
    }
    ghost var body := out;
    var sum := Checksum(out);
    out := Put(out, sum, 4);
    HeaderStays(body, out, s);
    assert s.sources[..i] == s.sources;
    NamesStay(body, out, s.sources);
    assert out[..|out| - TRAILER] == body;
  }

  // ------------------------------------------------------------------
  // Reading
  // ------------------------------------------------------------------

  lemma {:induction false} ValueFits(bytes: seq<Byte>)
    ensures Value(bytes) < Power(|bytes|)
  {
    if bytes != [] { ValueFits(bytes[1..]); }
  }

  /** `get`. */
  method Get(bytes: seq<Byte>, cursor: nat, width: nat) returns (value: nat, next: nat)
    requires cursor + width <= |bytes|
    ensures Field(bytes, cursor, width, value) && next == cursor + width && value < Power(width)
  {
    ValueFits(bytes[cursor..cursor + width]);
    value := Value(bytes[cursor..cursor + width]);
    next := cursor + width;
  }

  predicate AdjacentTwice(s: seq<nat>) { exists i :: 0 <= i < |s| - 1 && s[i] == s[i + 1] }

  predicate IsSorted(s: seq<nat>) { forall i :: 0 <= i < |s| - 1 ==> s[i] <= s[i + 1] }

  lemma {:induction false} SortedWithoutTwins(s: seq<nat>)
    ensures IsSorted(s) && !AdjacentTwice(s) <==> Ascending(s)
  {
    if Ascending(s) {
      assert forall i :: 0 <= i < |s| - 1 ==> s[i] < s[i + 1];
    } else if IsSorted(s) && !AdjacentTwice(s) {
      var i, j :| 0 <= i < j < |s| && s[i] >= s[j];
      Climb(s, i, j);
    }
  }

  lemma {:induction false} Climb(s: seq<nat>, i: nat, j: nat)
    requires IsSorted(s) && !AdjacentTwice(s) && i < j < |s|
    ensures s[i] < s[j]
    decreases j - i
  {
    assert s[j - 1] <= s[j - 1 + 1] && s[j - 1] != s[j - 1 + 1];
    if i < j - 1 { Climb(s, i, j - 1); }
  }

  /** The fixed part, and whether it can be the start of a record at all. The sources are still to come. */
  method GetHeader(bytes: seq<Byte>, widest: nat) returns (r: Option<(Stored, nat)>)
    ensures r.Some? ==>
              && |bytes| == HEADER + 8 * r.value.1 + TRAILER && 0 < r.value.1 <= MAX_SOURCES
              && forall sources: seq<nat> :: |sources| == r.value.1 ==> Header(bytes, r.value.0.(sources := sources))
    ensures r.Some? ==> r.value.0.container <= widest && r.value.0.target <= widest
    ensures r.None? ==> forall s: Stored :: Spells(bytes, s) ==> !Sensible(s, widest)
  {
    if |bytes| < HEADER + TRAILER { return None; }
    if bytes[..4] != MAGIC { return None; }
    var format, reserved, container, target, high, low, count;
    var cursor := 4;
    format, cursor := Get(bytes, cursor, 2);
    reserved, cursor := Get(bytes, cursor, 2);
    if format != FORMAT { return None; }
    if reserved != 0 { return None; }
    container, cursor := Get(bytes, cursor, 8);
    target, cursor := Get(bytes, cursor, 8);
    high, cursor := Get(bytes, cursor, 8);
    low, cursor := Get(bytes, cursor, 8);
    count, cursor := Get(bytes, cursor, 8);
    if count == 0 || count > MAX_SOURCES { return None; }
    if |bytes| != HEADER + 8 * count + TRAILER { return None; }
    if container > widest || target > widest { return None; }
    r := Some((Stored(container, target, high, low, []), count));
  }

  method GetSources(bytes: seq<Byte>, count: nat, widest: nat) returns (r: Option<seq<nat>>)
    requires |bytes| == HEADER + 8 * count + TRAILER
    ensures r.Some? ==> |r.value| == count && Names(bytes, r.value) && forall i :: 0 <= i < count ==> r.value[i] <= widest
    ensures r.None? ==> forall sources: seq<nat> :: |sources| == count && Names(bytes, sources) ==> exists i :: 0 <= i < count && sources[i] > widest
  {
    var sources: seq<nat> := [];
    var cursor := HEADER;
    while |sources| < count
      invariant |sources| <= count && cursor == HEADER + 8 * |sources| && Names(bytes, sources)
      invariant forall i :: 0 <= i < |sources| ==> sources[i] <= widest
    {
      var source, next := Get(bytes, cursor, 8);
      if source > widest {
        assert forall named: seq<nat> :: |named| == count && Names(bytes, named) ==> named[|sources|] == source;
        return None;
      }
      sources := sources + [source];
      cursor := next;
    }
    r := Some(sources);
  }

  /** `decode_merge_plan`: a plan comes back exactly when the bytes spell one that a recovery may act on. */
  method Decode(bytes: seq<Byte>, widest: nat) returns (r: Option<Stored>)
    ensures r.Some? ==> Spells(bytes, r.value) && Sensible(r.value, widest)
    ensures r.None? ==> forall s: Stored :: Spells(bytes, s) ==> !Sensible(s, widest)
  {
    var header := GetHeader(bytes, widest);
    if header.None? { return None; }
    var sources := GetSources(bytes, header.value.1, widest);
    if sources.None? { return None; }
    var plan := header.value.0.(sources := sources.value);
    var stored, end := Get(bytes, |bytes| - TRAILER, TRAILER);
    var sum := Checksum(bytes[..|bytes| - TRAILER]);
    if sum != stored { return None; }
    assert Spells(bytes, plan);
    SortedWithoutTwins(plan.sources);
    if (plan.high == 0 && plan.low == 0) || plan.target in plan.sources || AdjacentTwice(plan.sources) || !IsSorted(plan.sources) {
      forall s: Stored | Spells(bytes, s) ensures !Sensible(s, widest) { OneMeaning(bytes, s, plan); }
      return None;
    }
    r := Some(plan);
  }

  // ------------------------------------------------------------------
  // What the two ends make of each other
  // ------------------------------------------------------------------

  /** Bytes spell at most one record. */
  lemma OneMeaning(bytes: seq<Byte>, s: Stored, t: Stored)
    requires Spells(bytes, s) && Spells(bytes, t)
    ensures s == t
  {
    forall i | 0 <= i < |s.sources| ensures s.sources[i] == t.sources[i] {
      assert Field(bytes, HEADER + 8 * i, 8, s.sources[i]) && Field(bytes, HEADER + 8 * i, 8, t.sources[i]);
    }
    assert s.sources == t.sources;
  }

  /** What is written is read back exactly when a recovery may act on it. */
  method WriteThenRead(s: Stored, widest: nat) returns (r: Option<Stored>)
    requires Wordly(s)
    ensures r == if Sensible(s, widest) then Some(s) else None
  {
    var bytes := Encode(s);
    r := Decode(bytes, widest);
    if r.Some? { OneMeaning(bytes, s, r.value); }
  }

  /** One damaged byte anywhere, and the bytes spell nothing. */
  lemma DamageIsSeen(a: seq<Byte>, b: seq<Byte>, i: nat, s: Stored, t: Stored)
    requires Spells(a, s) && |a| == |b| && i < |a| && a[i] != b[i]
    requires forall j :: 0 <= j < |a| && j != i ==> a[j] == b[j]
    ensures !Spells(b, t)
  {
    var n := |a| - TRAILER;
    if Sealed(b) {
      if i < n {
        assert a[n..n + TRAILER] == b[n..n + TRAILER];
        SumSeesTheByte(a[..n], b[..n], i);
      } else {
        assert a[..n] == b[..n];
        assert a[n..n + TRAILER][i - n] == a[i] && b[n..n + TRAILER][i - n] == b[i];
        ValueDetermines(a[n..n + TRAILER], b[n..n + TRAILER]);
      }
    }
  }

  function PlanOf(s: Stored): Plan { Plan(s.target, s.high * (MAX64 + 1) + s.low, s.sources) }

  /** What the recovery of this model takes to be a readable record is what the bytes allow on a sixty-four-bit platform. */
  lemma ReadableIsSensible(s: Stored)
    requires Wordly(s)
    ensures Readable(Content.Sidecar(PlanOf(s)), s.target) <==> Sensible(s, MAX64)
  {
    assert s.high * (MAX64 + 1) + s.low == 0 <==> s.high == 0 && s.low == 0;
  }
}
