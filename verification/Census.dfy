/**
  The census of what is physically stored: figures read out of files, added up in sixty-four-bit
  words. Either it refuses, or every figure it reports is the true sum.
*/
module Census {
  import opened Basics
  import opened Checked

  /** A sixty-four-bit addition that nobody checks wraps here. */
  const WIDTH: nat := 0x1_0000_0000_0000_0000

  /** What one class fixes: payload bytes of an entry, padding of a value, bytes of a slot. */
  datatype Layout = Layout(capacity: nat, padding: nat, slot: nat)

  /** One generation as mapped: the recorded payload length of each entry, in visiting order, and the table around them. */
  datatype Map = Map(sizes: seq<nat>, buckets: nat, segment: nat, spare: nat, bytes: nat)

  datatype Figures = Figures(
    entries: nat, payload: nat, unused: nat, padding: nat,
    segment: nat, spare: nat, bytes: nat,
    occupied: nat, empty: nat, metadata: nat,
    residual: Option<nat>)

  datatype Bucket = Bucket(size: nat, count: nat)

  datatype ClassCensus = ClassCensus(sums: Figures, histogram: seq<Bucket>)

  /** A slot holds a key and a value; the value holds its payload and its padding. */
  predicate Laid(l: Layout) { l.capacity + l.padding <= l.slot <= MAX64 }

  /** Every number a file gives is a sixty-four-bit word. */
  predicate Recorded(m: Map) {
    && |m.sizes| <= MAX64 && m.buckets <= MAX64 && m.segment <= MAX64 && m.spare <= MAX64 && m.bytes <= MAX64
    && forall i :: 0 <= i < |m.sizes| ==> m.sizes[i] <= MAX64
  }

  // ------------------------------------------------------------------
  // The true figures, over unbounded integers
  // ------------------------------------------------------------------

  function Total(sizes: seq<nat>): nat {
    if sizes == [] then 0 else Total(sizes[..|sizes| - 1]) + sizes[|sizes| - 1]
  }

  /** What the entries leave unused of what they could hold. */
  function Unused(sizes: seq<nat>, capacity: nat): nat
    requires Bounded(sizes, capacity)
  {
    if sizes == [] then 0 else Unused(sizes[..|sizes| - 1], capacity) + (capacity - sizes[|sizes| - 1])
  }

  function Times(a: nat, b: nat): nat { a * b }

  /** No entry claims more than its class can hold. */
  predicate Bounded(sizes: seq<nat>, capacity: nat) {
    forall i :: 0 <= i < |sizes| ==> sizes[i] <= capacity
  }

  function Descriptors(buckets: nat): nat { (buckets / 15 + 1) * 16 }

  function Residual(m: Map, modelled: nat): Option<nat> {
    if m.spare <= m.segment && modelled <= m.segment - m.spare then Some(m.segment - m.spare - modelled) else None
  }

  /** The generation describes something: bounded lengths, no more entries than buckets, and a table of a size that exists. */
  predicate Clean(l: Layout, m: Map) {
    && Bounded(m.sizes, l.capacity)
    && |m.sizes| <= m.buckets
    && Times(m.buckets, l.slot) + Descriptors(m.buckets) <= MAX64
  }

  function Measured(l: Layout, m: Map): Figures
    requires Clean(l, m)
  {
    var n := |m.sizes|;
    Figures(n, Total(m.sizes), Unused(m.sizes, l.capacity), Times(n, l.padding),
            m.segment, m.spare, m.bytes,
            Times(n, l.slot), Times(m.buckets - n, l.slot), Descriptors(m.buckets),
            Residual(m, Times(m.buckets, l.slot) + Descriptors(m.buckets)))
  }

  const NOTHING := Figures(0, 0, 0, 0, 0, 0, 0, 0, 0, 0, Some(0))

  function Plus(a: Figures, b: Figures): Figures {
    Figures(a.entries + b.entries, a.payload + b.payload, a.unused + b.unused, a.padding + b.padding,
            a.segment + b.segment, a.spare + b.spare, a.bytes + b.bytes,
            a.occupied + b.occupied, a.empty + b.empty, a.metadata + b.metadata,
            if a.residual.Some? && b.residual.Some? then Some(a.residual.value + b.residual.value) else None)
  }

  function SumOf(parts: seq<Figures>): Figures {
    if parts == [] then NOTHING else Plus(SumOf(parts[..|parts| - 1]), parts[|parts| - 1])
  }

  /** Every figure whose sum is checked fits its word. */
  predicate Fits(a: Figures) {
    && a.entries <= MAX64 && a.payload <= MAX64 && a.padding <= MAX64
    && a.segment <= MAX64 && a.spare <= MAX64 && a.bytes <= MAX64
    && a.occupied <= MAX64 && a.empty <= MAX64 && a.metadata <= MAX64
  }

  /** Why the two sums that are not checked need no check: each stays below one that is. */
  predicate Dominated(a: Figures) {
    && a.unused <= a.occupied
    && (a.residual.Some? ==> a.residual.value <= a.segment)
  }

  lemma {:induction false} WholeCapacity(sizes: seq<nat>, capacity: nat)
    requires Bounded(sizes, capacity)
    ensures Total(sizes) + Unused(sizes, capacity) == |sizes| * capacity
  {
    if sizes != [] {
      WholeCapacity(sizes[..|sizes| - 1], capacity);
      assert |sizes| * capacity == (|sizes| - 1) * capacity + capacity;
    }
  }

  lemma {:induction false} TotalOfBoth(a: seq<nat>, b: seq<nat>)
    ensures Total(a + b) == Total(a) + Total(b)
  {
    if b == [] {
      assert a + b == a;
    } else {
      TotalOfBoth(a, b[..|b| - 1]);
      assert (a + b)[..|a + b| - 1] == a + b[..|b| - 1];
    }
  }

  /** Payload and unused capacity share out the whole capacity of a generation, and its slots share out its buckets. */
  lemma SharedOut(l: Layout, m: Map)
    requires Laid(l) && Clean(l, m)
    ensures var f := Measured(l, m);
            && f.payload + f.unused == Times(f.entries, l.capacity)
            && f.occupied + f.empty == m.buckets * l.slot
            && Dominated(f)
            && f.padding <= f.occupied
  {
    var n := |m.sizes|;
    WholeCapacity(m.sizes, l.capacity);
    LessTimes(n, l.capacity, l.slot);
    LessTimes(n, l.padding, l.slot);
    SlotsShareBuckets(n, m.buckets, l.slot);
  }

  lemma SlotsShareBuckets(n: nat, buckets: nat, slot: nat)
    requires n <= buckets
    ensures n * slot + Times(buckets - n, slot) == Times(buckets, slot)
  {
    assert n * slot + (buckets - n) * slot == buckets * slot;
  }

  // ------------------------------------------------------------------
  // One generation
  // ------------------------------------------------------------------

  /** A counter that was `before` and met `more` increments, as a word. */
  function Wrapped(before: nat, more: nat): nat { (before + more) % WIDTH }

  lemma WrapAgain(x: nat, y: nat)
    ensures (x % WIDTH + y) % WIDTH == (x + y) % WIDTH
  {
  }

  lemma Unwrapped(x: nat)
    requires x <= MAX64
    ensures x % WIDTH == x
  {
  }

  /** The counters of a class, as words. */
  ghost predicate Counted(was: seq<nat>, now: seq<nat>, sizes: seq<nat>) {
    && |now| == |was|
    && forall j :: 0 <= j < |was| ==> now[j] == Wrapped(was[j], multiset(sizes)[j])
  }

  predicate Words(counters: seq<nat>) { forall j :: 0 <= j < |counters| ==> counters[j] <= MAX64 }

  lemma CountedOneMore(was: seq<nat>, now: seq<nat>, sizes: seq<nat>, size: nat)
    requires Counted(was, now, sizes) && size < |was|
    ensures Counted(was, now[size := (now[size] + 1) % WIDTH], sizes + [size])
  {
    WrapAgain(was[size] + multiset(sizes)[size], 1);
    assert multiset(sizes + [size]) == multiset(sizes) + multiset{size};
  }

  lemma CountedTwice(was: seq<nat>, mid: seq<nat>, now: seq<nat>, first: seq<nat>, second: seq<nat>)
    requires Counted(was, mid, first) && Counted(mid, now, second)
    ensures Counted(was, now, first + second)
  {
    assert multiset(first + second) == multiset(first) + multiset(second);
    forall j | 0 <= j < |was| ensures now[j] == Wrapped(was[j], multiset(first + second)[j]) {
      WrapAgain(was[j] + multiset(first)[j], multiset(second)[j]);
    }
  }

  /** The sums of the entries so far, as words. */
  ghost predicate Summed(l: Layout, sizes: seq<nat>, payload: nat, unused: nat) {
    && Bounded(sizes, l.capacity)
    && payload == Total(sizes) % WIDTH
    && unused == Unused(sizes, l.capacity) % WIDTH
  }

  lemma SummedOneMore(l: Layout, sizes: seq<nat>, size: nat, payload: nat, unused: nat)
    requires Summed(l, sizes, payload, unused) && size <= l.capacity
    ensures Summed(l, sizes + [size], (payload + size) % WIDTH, (unused + (l.capacity - size)) % WIDTH)
  {
    var now := sizes + [size];
    assert now[..|now| - 1] == sizes;
    WrapAgain(Total(sizes), size);
    WrapAgain(Unused(sizes, l.capacity), l.capacity - size);
  }

  /** One turn of the loop. The two sums and the counter wrap if they must. */
  method AddEntry(l: Layout, size: nat, payload: nat, unused: nat, histogram: array<nat>, ghost sizes: seq<nat>, ghost was: seq<nat>)
    returns (payload': nat, unused': nat)
    requires size <= l.capacity && histogram.Length == l.capacity + 1
    requires Summed(l, sizes, payload, unused) && Counted(was, histogram[..], sizes) && Words(histogram[..])
    modifies histogram
    ensures Summed(l, sizes + [size], payload', unused') && Counted(was, histogram[..], sizes + [size])
    ensures Words(histogram[..])
  {
    SummedOneMore(l, sizes, size, payload, unused);
    CountedOneMore(was, histogram[..], sizes, size);
    ghost var before := histogram[..];
    payload' := (payload + size) % WIDTH;
    unused' := (unused + (l.capacity - size)) % WIDTH;
    histogram[size] := (histogram[size] + 1) % WIDTH;
    assert histogram[..] == before[size := (before[size] + 1) % WIDTH];
  }

  /** The loop over the entries of one map; it stops at the first length that cannot be. */
  method AddEntries(l: Layout, sizes: seq<nat>, histogram: array<nat>) returns (ok: bool, payload: nat, unused: nat)
    requires histogram.Length == l.capacity + 1 && Words(histogram[..])
    modifies histogram
    ensures ok <==> Bounded(sizes, l.capacity)
    ensures ok ==> Summed(l, sizes, payload, unused) && Counted(old(histogram[..]), histogram[..], sizes)
    ensures Words(histogram[..])
  {
    ghost var was := histogram[..];
    payload, unused := 0, 0;
    var i := 0;
    while i < |sizes|
      invariant 0 <= i <= |sizes|
      invariant Summed(l, sizes[..i], payload, unused) && Counted(was, histogram[..], sizes[..i])
      invariant Words(histogram[..])
    {
      if sizes[i] > l.capacity { return false, payload, unused; }
      payload, unused := AddEntry(l, sizes[i], payload, unused, histogram, sizes[..i], was);
      assert sizes[..i + 1] == sizes[..i] + [sizes[i]];
      i := i + 1;
    }
    assert sizes[..i] == sizes;
    ok := true;
  }

  /** The check that comes after the loop suffices for it. */
  lemma NothingWrapped(l: Layout, sizes: seq<nat>, payload: nat, unused: nat)
    requires Summed(l, sizes, payload, unused) && |sizes| * l.capacity <= MAX64
    ensures payload == Total(sizes) && unused == Unused(sizes, l.capacity)
  {
    WholeCapacity(sizes, l.capacity);
    var whole := |sizes| * l.capacity;
    assert Total(sizes) <= whole && Unused(sizes, l.capacity) <= whole;
    Unwrapped(Total(sizes));
    Unwrapped(Unused(sizes, l.capacity));
  }

  /**
    `accumulate_full`. The loop adds without checking; the one multiplication after it is what
    rules out that either sum had wrapped.
  */
  method AccumulateFull(l: Layout, m: Map, histogram: array<nat>) returns (r: Result<(nat, nat, nat)>)
    requires Laid(l) && Recorded(m) && histogram.Length == l.capacity + 1 && Words(histogram[..])
    modifies histogram
    ensures r.Ok? <==>
              && Bounded(m.sizes, l.capacity) && |m.sizes| <= m.buckets
              && |m.sizes| * l.padding <= MAX64 && |m.sizes| * l.capacity <= MAX64
    ensures r.Ok? ==>
              && r.value == (Total(m.sizes), Unused(m.sizes, l.capacity), Times(|m.sizes|, l.padding))
              && Counted(old(histogram[..]), histogram[..], m.sizes)
    ensures r.Err? ==> r.error == EntryCorrupt
    ensures Words(histogram[..])
  {
    if |m.sizes| > m.buckets { return Err(EntryCorrupt); }
    var padding := CheckedMul(|m.sizes|, l.padding);
    if padding.None? { return Err(EntryCorrupt); }
    var ok, payload, unused := AddEntries(l, m.sizes, histogram);
    if !ok { return Err(EntryCorrupt); }
    var bound := CheckedMul(|m.sizes|, l.capacity);
    if bound.None? { return Err(EntryCorrupt); }
    NothingWrapped(l, m.sizes, payload, unused);
    r := Ok((payload, unused, padding.value));
  }

  /** `group_metadata_model`: sixteen bytes for every fifteen slots. */
  method GroupMetadata(buckets: nat) returns (r: Option<nat>)
    requires buckets <= MAX64
    ensures r == if Descriptors(buckets) <= MAX64 then Some(Descriptors(buckets)) else None
  {
    var groups := CheckedAdd(buckets / 15, 1);
    if groups.None? { return None; }
    r := CheckedMul(groups.value, 16);
  }

  /** `set_residual`: no figure at all when the model comes to more than was allocated. */
  method SetResidual(m: Map, modelled: nat) returns (r: Option<nat>)
    ensures r == Residual(m, modelled)
  {
    if m.spare > m.segment { return None; }
    var handedOut := m.segment - m.spare;
    if modelled > handedOut { return None; }
    r := Some(handedOut - modelled);
  }

  /** `finish_generation`: occupied and empty slots, group metadata, and what is left of the segment. */
  method FinishGeneration(l: Layout, m: Map) returns (r: Result<(nat, nat, nat, Option<nat>)>)
    requires Laid(l) && Recorded(m)
    ensures r.Ok? <==> |m.sizes| <= m.buckets && Times(m.buckets, l.slot) + Descriptors(m.buckets) <= MAX64
    ensures r.Ok? ==>
              r.value == (Times(|m.sizes|, l.slot), Times(m.buckets - |m.sizes|, l.slot), Descriptors(m.buckets),
                          Residual(m, Times(m.buckets, l.slot) + Descriptors(m.buckets)))
    ensures r.Err? ==> r.error == EntryCorrupt
  {
    var n := |m.sizes|;
    if n > m.buckets { return Err(EntryCorrupt); }
    SlotsShareBuckets(n, m.buckets, l.slot);
    var occupied := CheckedMul(n, l.slot);
    if occupied.None? { return Err(EntryCorrupt); }
    var empty := CheckedMul(m.buckets - n, l.slot);
    if empty.None? { return Err(EntryCorrupt); }
    var metadata := GroupMetadata(m.buckets);
    if metadata.None? { return Err(EntryCorrupt); }
    var slots := CheckedAdd(occupied.value, empty.value);
    if slots.None? { return Err(EntryCorrupt); }
    var modelled := CheckedAdd(slots.value, metadata.value);
    if modelled.None? { return Err(EntryCorrupt); }
    var residual := SetResidual(m, modelled.value);
    r := Ok((occupied.value, empty.value, metadata.value, residual));
  }

  /** A table whose slots can be counted in bytes holds entries whose padding and capacity can be. */
  lemma SlotsBoundTheRest(l: Layout, m: Map)
    requires Laid(l) && |m.sizes| <= m.buckets && Times(m.buckets, l.slot) <= MAX64
    ensures |m.sizes| * l.padding <= MAX64 && |m.sizes| * l.capacity <= MAX64
  {
    SlotsShareBuckets(|m.sizes|, m.buckets, l.slot);
    LessTimes(|m.sizes|, l.capacity, l.slot);
    LessTimes(|m.sizes|, l.padding, l.slot);
  }

  /** One generation: refused exactly when it is not clean. */
  method MeasureGeneration(l: Layout, m: Map, histogram: array<nat>) returns (r: Result<Figures>)
    requires Laid(l) && Recorded(m) && histogram.Length == l.capacity + 1 && Words(histogram[..])
    modifies histogram
    ensures r.Ok? <==> Clean(l, m)
    ensures r.Ok? ==> r.value == Measured(l, m) && Counted(old(histogram[..]), histogram[..], m.sizes)
    ensures r.Err? ==> r.error == EntryCorrupt
    ensures Words(histogram[..])
  {
    if |m.sizes| <= m.buckets && Times(m.buckets, l.slot) <= MAX64 { SlotsBoundTheRest(l, m); }
    var read := AccumulateFull(l, m, histogram);
    if read.Err? { return Err(read.error); }
    var made := FinishGeneration(l, m);
    if made.Err? { return Err(made.error); }
    r := Ok(Figures(|m.sizes|, read.value.0, read.value.1, read.value.2, m.segment, m.spare, m.bytes,
                    made.value.0, made.value.1, made.value.2, made.value.3));
  }

  // ------------------------------------------------------------------
  // Folding generations into classes and classes into the report
  // ------------------------------------------------------------------

  /** `add_optional`, for a residual: the addition itself is not checked. */
  method AddResidual(total: Option<nat>, part: Option<nat>) returns (r: Option<nat>)
    ensures r == if total.Some? && part.Some? then Some((total.value + part.value) % WIDTH) else None
  {
    if total.None? || part.None? { return None; }
    r := Some((total.value + part.value) % WIDTH);
  }

  /** `summing`: one flag for a run of checked additions. */
  method Accumulate(accumulator: nat, value: nat, ok: bool) returns (sum: nat, still: bool)
    requires accumulator <= MAX64 && value <= MAX64
    ensures still <==> ok && accumulator + value <= MAX64
    ensures still ==> sum == accumulator + value
    ensures sum <= MAX64
  {
    var added := CheckedAdd(accumulator, value);
    if added.None? { return accumulator, false; }
    return added.value, ok;
  }

  /** `fold_into_class` and `fold_into_report`: nine sums checked, two that need no check. */
  method Fold(total: Figures, part: Figures) returns (r: Option<Figures>)
    requires Fits(total) && Dominated(total) && Fits(part) && Dominated(part)
    ensures r == if Fits(Plus(total, part)) then Some(Plus(total, part)) else None
    ensures r.Some? ==> Dominated(r.value)
  {
    var ok := true;
    var entries, payload, padding, segment, spare, bytes, occupied, empty, metadata;
    entries, ok := Accumulate(total.entries, part.entries, ok);
    payload, ok := Accumulate(total.payload, part.payload, ok);
    padding, ok := Accumulate(total.padding, part.padding, ok);
    segment, ok := Accumulate(total.segment, part.segment, ok);
    spare, ok := Accumulate(total.spare, part.spare, ok);
    bytes, ok := Accumulate(total.bytes, part.bytes, ok);
    occupied, ok := Accumulate(total.occupied, part.occupied, ok);
    empty, ok := Accumulate(total.empty, part.empty, ok);
    metadata, ok := Accumulate(total.metadata, part.metadata, ok);
    if !ok { return None; }
    var unused := (total.unused + part.unused) % WIDTH;
    Unwrapped(total.unused + part.unused);
    var residual := AddResidual(total.residual, part.residual);
    if residual.Some? { Unwrapped(total.residual.value + part.residual.value); }
    r := Some(Figures(entries, payload, unused, padding, segment, spare, bytes, occupied, empty, metadata, residual));
  }

  // ------------------------------------------------------------------
  // The histogram
  // ------------------------------------------------------------------

  function Sum(counters: seq<nat>): nat {
    if counters == [] then 0 else Sum(counters[..|counters| - 1]) + counters[|counters| - 1]
  }

  /** The counters, each times the size it counts. */
  function Weighted(counters: seq<nat>): nat {
    if counters == [] then 0
    else Weighted(counters[..|counters| - 1]) + Times(|counters| - 1, counters[|counters| - 1])
  }

  function CountsOf(buckets: seq<Bucket>): nat {
    if buckets == [] then 0 else CountsOf(buckets[..|buckets| - 1]) + buckets[|buckets| - 1].count
  }

  function BytesOf(buckets: seq<Bucket>): nat {
    if buckets == [] then 0
    else BytesOf(buckets[..|buckets| - 1]) + Times(buckets[|buckets| - 1].size, buckets[|buckets| - 1].count)
  }

  lemma {:induction false} SumOfOneMore(counters: seq<nat>, j: nat)
    requires j < |counters|
    ensures Sum(counters[j := counters[j] + 1]) == Sum(counters) + 1
    ensures Weighted(counters[j := counters[j] + 1]) == Weighted(counters) + j
  {
    var more := counters[j := counters[j] + 1];
    var n := |counters| - 1;
    if j < n {
      SumOfOneMore(counters[..n], j);
      assert more[..n] == counters[..n][j := counters[j] + 1];
    } else {
      assert more[..n] == counters[..n];
      assert n * (counters[n] + 1) == n * counters[n] + n;
    }
  }

  lemma {:induction false} SumOfNone(counters: seq<nat>)
    requires forall j :: 0 <= j < |counters| ==> counters[j] == 0
    ensures Sum(counters) == 0 && Weighted(counters) == 0
  {
    if counters != [] { SumOfNone(counters[..|counters| - 1]); }
  }

  /** One counter for each length, each the number of entries of that length. */
  ghost predicate Counts(counters: seq<nat>, sizes: seq<nat>) {
    && |counters| > 0 && Bounded(sizes, |counters| - 1)
    && forall j :: 0 <= j < |counters| ==> counters[j] == multiset(sizes)[j]
  }

  lemma CountsOfFewer(counters: seq<nat>, before: seq<nat>, last: nat) returns (less: seq<nat>)
    requires Counts(counters, before + [last])
    ensures Counts(less, before) && last < |less| && less[last := less[last] + 1] == counters
  {
    var sizes := before + [last];
    assert sizes[|before|] == last && forall i :: 0 <= i < |before| ==> sizes[i] == before[i];
    assert multiset(sizes) == multiset(before) + multiset{last};
    less := counters[last := multiset(before)[last]];
    assert counters[last] == multiset(sizes)[last];
  }

  /** A true histogram adds up to the entries, and weighted by length to their payload. */
  lemma {:induction false} HistogramAddsUp(counters: seq<nat>, sizes: seq<nat>)
    requires Counts(counters, sizes)
    ensures Sum(counters) == |sizes| && Weighted(counters) == Total(sizes)
    decreases |sizes|
  {
    if sizes == [] {
      SumOfNone(counters);
    } else {
      var last := sizes[|sizes| - 1];
      var before := sizes[..|sizes| - 1];
      assert sizes == before + [last];
      var less := CountsOfFewer(counters, before, last);
      HistogramAddsUp(less, before);
      SumOfOneMore(less, last);
    }
  }

  function Occurring(counters: seq<nat>): seq<Bucket> {
    if counters == [] then []
    else
      var n := |counters| - 1;
      if counters[n] == 0 then Occurring(counters[..n]) else Occurring(counters[..n]) + [Bucket(n, counters[n])]
  }

  /** `compact_histogram`. */
  method CompactHistogram(counters: seq<nat>) returns (buckets: seq<Bucket>)
    ensures buckets == Occurring(counters)
  {
    buckets := [];
    var i := 0;
    while i < |counters|
      invariant 0 <= i <= |counters|
      invariant buckets == Occurring(counters[..i])
    {
      assert counters[..i + 1][..i] == counters[..i];
      if counters[i] != 0 { buckets := buckets + [Bucket(i, counters[i])]; }
      i := i + 1;
    }
    assert counters[..i] == counters;
  }

  lemma {:induction false} OccurringIsAscending(counters: seq<nat>)
    ensures var r := Occurring(counters);
            forall i, j :: 0 <= i < j < |r| ==> r[i].size < r[j].size < |counters|
    ensures var r := Occurring(counters); |r| > 0 ==> r[0].size < |counters|
  {
    if counters != [] { OccurringIsAscending(counters[..|counters| - 1]); }
  }

  /** Exactly the lengths that occur, each with its counter. */
  lemma {:induction false} OccurringIsExact(counters: seq<nat>, b: Bucket)
    ensures b in Occurring(counters) <==> b.size < |counters| && counters[b.size] == b.count != 0
  {
    if counters != [] { OccurringIsExact(counters[..|counters| - 1], b); }
  }

  lemma CountsOfBoth(buckets: seq<Bucket>, b: Bucket)
    ensures CountsOf(buckets + [b]) == CountsOf(buckets) + b.count
    ensures BytesOf(buckets + [b]) == BytesOf(buckets) + Times(b.size, b.count)
  {
    assert (buckets + [b])[..|buckets|] == buckets;
  }

  lemma {:induction false} OccurringAddsUp(counters: seq<nat>)
    ensures CountsOf(Occurring(counters)) == Sum(counters)
    ensures BytesOf(Occurring(counters)) == Weighted(counters)
  {
    if counters != [] {
      var n := |counters| - 1;
      OccurringAddsUp(counters[..n]);
      if counters[n] != 0 { CountsOfBoth(Occurring(counters[..n]), Bucket(n, counters[n])); }
    }
  }

  /** What the histogram of a class says of the entries of that class. */
  ghost predicate Histogram(buckets: seq<Bucket>, sizes: seq<nat>) {
    && (forall i, j :: 0 <= i < j < |buckets| ==> buckets[i].size < buckets[j].size)
    && (forall b: Bucket :: b in buckets <==> multiset(sizes)[b.size] == b.count != 0)
    && CountsOf(buckets) == |sizes|
    && BytesOf(buckets) == Total(sizes)
  }

  lemma CompactIsHistogram(counters: seq<nat>, sizes: seq<nat>)
    requires Counts(counters, sizes)
    ensures Histogram(Occurring(counters), sizes)
  {
    OccurringIsAscending(counters);
    OccurringAddsUp(counters);
    HistogramAddsUp(counters, sizes);
    forall b: Bucket ensures b in Occurring(counters) <==> multiset(sizes)[b.size] == b.count != 0 {
      OccurringIsExact(counters, b);
      if multiset(sizes)[b.size] != 0 { assert b.size in sizes; }
    }
  }

  // ------------------------------------------------------------------
  // One class
  // ------------------------------------------------------------------

  function SizesOf(maps: seq<Map>): seq<nat> {
    if maps == [] then [] else SizesOf(maps[..|maps| - 1]) + maps[|maps| - 1].sizes
  }

  ghost predicate AllClean(l: Layout, maps: seq<Map>) {
    forall i :: 0 <= i < |maps| ==> Clean(l, maps[i])
  }

  function Measures(l: Layout, maps: seq<Map>): seq<Figures>
    requires forall i :: 0 <= i < |maps| ==> Clean(l, maps[i])
  {
    seq(|maps|, i requires 0 <= i < |maps| => Measured(l, maps[i]))
  }

  /** What a class would come to, in unbounded integers. */
  function ClassSum(l: Layout, maps: seq<Map>): Figures
    requires forall i :: 0 <= i < |maps| ==> Clean(l, maps[i])
  {
    SumOf(Measures(l, maps))
  }

  lemma ClassSumOneMore(l: Layout, maps: seq<Map>, m: Map)
    requires AllClean(l, maps + [m])
    ensures AllClean(l, maps) && Clean(l, m)
    ensures ClassSum(l, maps + [m]) == Plus(ClassSum(l, maps), Measured(l, m))
    ensures SizesOf(maps + [m]) == SizesOf(maps) + m.sizes
  {
    assert (maps + [m])[|maps|] == m;
    assert forall i :: 0 <= i < |maps| ==> (maps + [m])[i] == maps[i];
    var parts := Measures(l, maps + [m]);
    assert parts[..|parts| - 1] == Measures(l, maps);
    assert (maps + [m])[..|maps|] == maps;
  }

  lemma TimesBoth(a: nat, b: nat, c: nat)
    ensures Times(a + b, c) == Times(a, c) + Times(b, c)
  {
    assert (a + b) * c == a * c + b * c;
  }

  /** The class sums say the same of its entries taken all together. */
  lemma {:induction false} ClassSumIsOfItsEntries(l: Layout, maps: seq<Map>)
    requires Laid(l) && AllClean(l, maps)
    ensures var sum, sizes := ClassSum(l, maps), SizesOf(maps);
            && Bounded(sizes, l.capacity)
            && sum.entries == |sizes|
            && sum.payload == Total(sizes)
            && sum.payload + sum.unused == Times(sum.entries, l.capacity)
            && Dominated(sum)
  {
    if maps != [] {
      var before, m := maps[..|maps| - 1], maps[|maps| - 1];
      assert maps == before + [m];
      ClassSumOneMore(l, before, m);
      ClassSumIsOfItsEntries(l, before);
      SharedOut(l, m);
      TotalOfBoth(SizesOf(before), m.sizes);
      TimesBoth(|SizesOf(before)|, |m.sizes|, l.capacity);
    }
  }

  /** A class the census can report: every generation clean, and no figure too large for its word. */
  ghost predicate Reportable(l: Layout, maps: seq<Map>, examined: nat) {
    && AllClean(l, maps)
    && Fits(ClassSum(l, maps))
    && examined + ClassSum(l, maps).entries <= MAX64
  }

  lemma ReportablePrefix(l: Layout, maps: seq<Map>, examined: nat, n: nat)
    requires n <= |maps| && Reportable(l, maps, examined)
    ensures Reportable(l, maps[..n], examined)
    decreases |maps| - n
  {
    if n < |maps| {
      ReportablePrefix(l, maps, examined, n + 1);
      assert maps[..n + 1] == maps[..n] + [maps[n]];
      ClassSumOneMore(l, maps[..n], maps[n]);
    } else {
      assert maps[..n] == maps;
    }
  }

  /** A class walked as far as `done`. */
  ghost predicate Walked(l: Layout, done: seq<Map>, sums: Figures, before: nat, examined: nat, counters: seq<nat>) {
    && Reportable(l, done, before)
    && sums == ClassSum(l, done)
    && examined == before + sums.entries
    && Counted(seq(l.capacity + 1, _ => 0), counters, SizesOf(done))
  }

  /** One generation of a class: measured, counted as examined, folded in. */
  method WalkGeneration(l: Layout, m: Map, sums: Figures, examined: nat, histogram: array<nat>, ghost done: seq<Map>, ghost before: nat)
    returns (r: Result<(Figures, nat)>)
    requires Laid(l) && Recorded(m) && histogram.Length == l.capacity + 1 && Words(histogram[..])
    requires Walked(l, done, sums, before, examined, histogram[..])
    modifies histogram
    ensures r.Ok? ==> Walked(l, done + [m], r.value.0, before, r.value.1, histogram[..])
    ensures r.Err? ==> r.error == EntryCorrupt && !Reportable(l, done + [m], before)
    ensures Words(histogram[..])
  {
    ghost var counters := histogram[..];
    assert (done + [m])[|done|] == m;
    var measured := MeasureGeneration(l, m, histogram);
    if measured.Err? { return Err(measured.error); }
    ClassSumOneMore(l, done, m);
    ClassSumIsOfItsEntries(l, done);
    SharedOut(l, m);
    FiguresFit(l, m);
    var more := CheckedAdd(examined, measured.value.entries);
    if more.None? { return Err(EntryCorrupt); }
    var folded := Fold(sums, measured.value);
    if folded.None? { return Err(EntryCorrupt); }
    CountedTwice(seq(l.capacity + 1, _ => 0), counters, histogram[..], SizesOf(done), m.sizes);
    r := Ok((folded.value, more.value));
  }

  /** A clean generation of recorded words has figures that are words. */
  lemma FiguresFit(l: Layout, m: Map)
    requires Laid(l) && Recorded(m) && Clean(l, m)
    ensures Fits(Measured(l, m))
  {
    SharedOut(l, m);
    LessTimes(|m.sizes|, l.capacity, l.slot);
  }

  /** Counters that never exceed the number of entries never wrapped. */
  lemma CountersAreTrue(l: Layout, counters: seq<nat>, sizes: seq<nat>)
    requires Counted(seq(l.capacity + 1, _ => 0), counters, sizes) && |sizes| <= MAX64 && Bounded(sizes, l.capacity)
    ensures Counts(counters, sizes)
  {
    forall j | 0 <= j < |counters| ensures counters[j] == multiset(sizes)[j] {
      assert multiset(sizes)[j] <= |multiset(sizes)|;
      Unwrapped(multiset(sizes)[j]);
    }
  }

  ghost predicate AllOpen(maps: seq<Result<Map>>) {
    forall i :: 0 <= i < |maps| ==> maps[i].Ok?
  }

  function Opened(maps: seq<Result<Map>>): (r: seq<Map>)
    ensures AllOpen(maps) ==> |r| == |maps| && forall i :: 0 <= i < |maps| ==> r[i] == maps[i].value
  {
    if maps == [] then []
    else Opened(maps[..|maps| - 1]) + if maps[|maps| - 1].Ok? then [maps[|maps| - 1].value] else []
  }

  lemma OpenedOneMore(maps: seq<Result<Map>>, n: nat)
    requires n < |maps| && maps[n].Ok?
    ensures Opened(maps[..n + 1]) == Opened(maps[..n]) + [maps[n].value]
  {
    assert maps[..n + 1][..n] == maps[..n];
  }

  lemma OpenedPrefix(maps: seq<Result<Map>>, n: nat)
    requires n <= |maps| && AllOpen(maps)
    ensures Opened(maps[..n]) == Opened(maps)[..n]
  {
    assert AllOpen(maps[..n]);
  }

  ghost predicate Acceptable(l: Layout, maps: seq<Result<Map>>, examined: nat) {
    AllOpen(maps) && Reportable(l, Opened(maps), examined)
  }

  /** A class that could be reported could be reported as far as any of its generations. */
  lemma AcceptablePrefix(l: Layout, maps: seq<Result<Map>>, examined: nat, n: nat)
    requires n <= |maps| && Acceptable(l, maps, examined)
    ensures Reportable(l, Opened(maps[..n]), examined)
  {
    OpenedPrefix(maps, n);
    ReportablePrefix(l, Opened(maps), examined, n);
  }

  /** A class walked through its first `i` generations. */
  ghost predicate WalkedTo(l: Layout, maps: seq<Result<Map>>, i: nat, sums: Figures, examined: nat, looked: nat, counters: seq<nat>) {
    && i <= |maps| && AllOpen(maps[..i]) && Words(counters)
    && Walked(l, Opened(maps[..i]), sums, examined, looked, counters)
  }

  lemma WalkedThere(l: Layout, maps: seq<Result<Map>>, i: nat, sums: Figures, examined: nat, looked: nat, counters: seq<nat>)
    requires i < |maps| && AllOpen(maps[..i]) && maps[i].Ok? && Words(counters)
    requires Walked(l, Opened(maps[..i]) + [maps[i].value], sums, examined, looked, counters)
    ensures WalkedTo(l, maps, i + 1, sums, examined, looked, counters)
  {
    OpenedOneMore(maps, i);
  }

  lemma RefusedThere(l: Layout, maps: seq<Result<Map>>, i: nat, examined: nat)
    requires i < |maps| && maps[i].Ok? && !Reportable(l, Opened(maps[..i]) + [maps[i].value], examined)
    ensures !Acceptable(l, maps, examined)
  {
    OpenedOneMore(maps, i);
    if Acceptable(l, maps, examined) { AcceptablePrefix(l, maps, examined, i + 1); }
  }

  /** One turn of the walk over a class. */
  method WalkNext(l: Layout, maps: seq<Result<Map>>, i: nat, sums: Figures, looked: nat, histogram: array<nat>, ghost examined: nat)
    returns (r: Result<(Figures, nat)>)
    requires Laid(l) && i < |maps| && (maps[i].Ok? ==> Recorded(maps[i].value))
    requires histogram.Length == l.capacity + 1
    requires WalkedTo(l, maps, i, sums, examined, looked, histogram[..])
    modifies histogram
    ensures r.Ok? ==> WalkedTo(l, maps, i + 1, r.value.0, examined, r.value.1, histogram[..])
    ensures r.Err? ==> !Acceptable(l, maps, examined) && (AllOpen(maps) ==> r.error == EntryCorrupt)
  {
    if maps[i].Err? { return Err(maps[i].error); }
    r := WalkGeneration(l, maps[i].value, sums, looked, histogram, Opened(maps[..i]), examined);
    if r.Err? {
      RefusedThere(l, maps, i, examined);
    } else {
      WalkedThere(l, maps, i, r.value.0, examined, r.value.1, histogram[..]);
    }
  }

  method WalkGenerations(l: Layout, maps: seq<Result<Map>>, examined: nat, histogram: array<nat>) returns (r: Result<(Figures, nat)>)
    requires Laid(l) && examined <= MAX64
    requires forall i :: 0 <= i < |maps| && maps[i].Ok? ==> Recorded(maps[i].value)
    requires histogram.Length == l.capacity + 1 && histogram[..] == seq(l.capacity + 1, _ => 0)
    modifies histogram
    ensures r.Ok? <==> Acceptable(l, maps, examined)
    ensures r.Ok? ==> Walked(l, Opened(maps), r.value.0, examined, r.value.1, histogram[..])
    ensures r.Err? && AllOpen(maps) ==> r.error == EntryCorrupt
  {
    var sums, looked := NOTHING, examined;
    var i := 0;
    while i < |maps|
      invariant WalkedTo(l, maps, i, sums, examined, looked, histogram[..])
    {
      var next := WalkNext(l, maps, i, sums, looked, histogram, examined);
      if next.Err? { return next; }
      sums, looked := next.value.0, next.value.1;
      i := i + 1;
    }
    assert maps[..i] == maps;
    r := Ok((sums, looked));
  }

  /**
    One class, generation after generation. It is refused exactly when a file does not open, a
    generation is not clean, or a sum does not fit; otherwise its figures are the true sums and its
    histogram is that of all its entries.
  */
  method WalkClass(l: Layout, maps: seq<Result<Map>>, examined: nat) returns (r: Result<(ClassCensus, nat)>)
    requires Laid(l) && examined <= MAX64
    requires forall i :: 0 <= i < |maps| && maps[i].Ok? ==> Recorded(maps[i].value)
    ensures r.Ok? <==> Acceptable(l, maps, examined)
    ensures r.Ok? ==>
              && r.value.0.sums == ClassSum(l, Opened(maps))
              && Histogram(r.value.0.histogram, SizesOf(Opened(maps)))
              && r.value.1 == examined + r.value.0.sums.entries
    ensures r.Err? && AllOpen(maps) ==> r.error == EntryCorrupt
  {
    var histogram := new nat[l.capacity + 1](_ => 0);
    assert histogram[..] == seq(l.capacity + 1, _ => 0);
    var walked := WalkGenerations(l, maps, examined, histogram);
    if walked.Err? { return Err(walked.error); }
    ClassSumIsOfItsEntries(l, Opened(maps));
    CountersAreTrue(l, histogram[..], SizesOf(Opened(maps)));
    CompactIsHistogram(histogram[..], SizesOf(Opened(maps)));
    var buckets := CompactHistogram(histogram[..]);
    r := Ok((ClassCensus(walked.value.0, buckets), walked.value.1));
  }

  // ------------------------------------------------------------------
  // The report
  // ------------------------------------------------------------------

  /** One class on disk: what it fixes, and its generations as they opened. */
  datatype Class = Class(layout: Layout, maps: seq<Result<Map>>)

  predicate Readable(c: Class) {
    && Laid(c.layout)
    && forall i :: 0 <= i < |c.maps| && c.maps[i].Ok? ==> Recorded(c.maps[i].value)
  }

  /** Every file of every class opens and makes sense. */
  ghost predicate Sensible(classes: seq<Class>) {
    forall i :: 0 <= i < |classes| ==> AllOpen(classes[i].maps) && AllClean(classes[i].layout, Opened(classes[i].maps))
  }

  ghost function SumOfClass(c: Class): Figures {
    if AllClean(c.layout, Opened(c.maps)) then ClassSum(c.layout, Opened(c.maps)) else NOTHING
  }

  ghost function WholeSum(classes: seq<Class>): Figures {
    if classes == [] then NOTHING
    else Plus(WholeSum(classes[..|classes| - 1]), SumOfClass(classes[|classes| - 1]))
  }

  /** What one class of the report says of that class on disk. */
  ghost predicate Says(c: ClassCensus, of: Class) {
    && c.sums == SumOfClass(of)
    && Histogram(c.histogram, SizesOf(Opened(of.maps)))
    && CountsOf(c.histogram) == c.sums.entries
    && BytesOf(c.histogram) == c.sums.payload
    && c.sums.payload + c.sums.unused == Times(c.sums.entries, of.layout.capacity)
  }

  datatype Report = Report(sums: Figures, classes: seq<ClassCensus>, examined: nat)

  /** The report is the truth about `classes`. */
  ghost predicate True(report: Report, classes: seq<Class>) {
    && |report.classes| == |classes|
    && (forall i :: 0 <= i < |classes| ==> Says(report.classes[i], classes[i]))
    && report.sums == WholeSum(classes)
    && report.examined == report.sums.entries
    && Fits(report.sums) && Dominated(report.sums)
  }

  /** The census can be taken: everything opens, makes sense, and adds up to words. */
  ghost predicate Takable(classes: seq<Class>) {
    Sensible(classes) && Fits(WholeSum(classes))
  }

  lemma WholeSumOneMore(done: seq<Class>, c: Class)
    ensures WholeSum(done + [c]) == Plus(WholeSum(done), SumOfClass(c))
  {
    var now := done + [c];
    assert now[..|now| - 1] == done && now[|done|] == c;
  }

  lemma SensibleOneMore(done: seq<Class>, c: Class)
    ensures Sensible(done + [c]) <==>
              Sensible(done) && AllOpen(c.maps) && AllClean(c.layout, Opened(c.maps))
  {
    var now := done + [c];
    assert now[|done|] == c;
    assert forall i :: 0 <= i < |done| ==> now[i] == done[i];
  }

  lemma TakablePrefix(classes: seq<Class>, n: nat)
    requires n <= |classes| && Takable(classes)
    ensures Takable(classes[..n])
    decreases |classes| - n
  {
    if n < |classes| {
      TakablePrefix(classes, n + 1);
      assert classes[..n + 1] == classes[..n] + [classes[n]];
      WholeSumOneMore(classes[..n], classes[n]);
      SensibleOneMore(classes[..n], classes[n]);
    } else {
      assert classes[..n] == classes;
    }
  }

  lemma SaysSo(c: Class, walked: ClassCensus)
    requires Laid(c.layout) && AllClean(c.layout, Opened(c.maps))
    requires walked.sums == ClassSum(c.layout, Opened(c.maps)) && Histogram(walked.histogram, SizesOf(Opened(c.maps)))
    ensures Says(walked, c)
  {
    ClassSumIsOfItsEntries(c.layout, Opened(c.maps));
  }

  lemma TrueOneMore(report: Report, done: seq<Class>, c: Class, walked: ClassCensus, after: Report)
    requires True(report, done) && Says(walked, c)
    requires after == Report(Plus(report.sums, walked.sums), report.classes + [walked], report.examined + walked.sums.entries)
    requires Fits(after.sums) && Dominated(after.sums)
    ensures True(after, done + [c])
  {
    WholeSumOneMore(done, c);
    var now := done + [c];
    forall i | 0 <= i < |now| ensures Says(after.classes[i], now[i]) {
      if i < |done| {
        assert after.classes[i] == report.classes[i] && now[i] == done[i];
      } else {
        assert after.classes[i] == walked && now[i] == c;
      }
    }
  }

  /** One class more can be reported when it is acceptable and the sums still fit. */
  lemma TakableOneMore(report: Report, done: seq<Class>, c: Class)
    requires Takable(done) && True(report, done)
    ensures Takable(done + [c]) <==>
              Acceptable(c.layout, c.maps, report.examined) && Fits(Plus(report.sums, SumOfClass(c)))
  {
    WholeSumOneMore(done, c);
    SensibleOneMore(done, c);
  }

  /** Extending a report by one class: refused exactly when the larger census cannot be taken. */
  method WalkOneMore(report: Report, c: Class, ghost done: seq<Class>) returns (r: Result<Report>)
    requires Readable(c) && Takable(done) && True(report, done)
    ensures r.Ok? <==> Takable(done + [c])
    ensures r.Ok? ==> True(r.value, done + [c])
    ensures r.Err? && AllOpen(c.maps) ==> r.error == EntryCorrupt
  {
    TakableOneMore(report, done, c);
    var walked := WalkClass(c.layout, c.maps, report.examined);
    if walked.Err? { return Err(walked.error); }
    ClassSumIsOfItsEntries(c.layout, Opened(c.maps));
    SaysSo(c, walked.value.0);
    var folded := Fold(report.sums, walked.value.0.sums);
    if folded.None? { return Err(EntryCorrupt); }
    var after := Report(folded.value, report.classes + [walked.value.0], walked.value.1);
    TrueOneMore(report, done, c, walked.value.0, after);
    r := Ok(after);
  }

  /**
    `database_impl::census` for a full store. Either it refuses, and then some file does not open, or
    describes nothing, or a true sum is too large for its word; or every figure of the report is the
    true sum and every histogram that of its class.
  */
  method Census(classes: seq<Class>) returns (r: Result<Report>)
    requires forall i :: 0 <= i < |classes| ==> Readable(classes[i])
    ensures r.Ok? <==> Takable(classes)
    ensures r.Ok? ==> True(r.value, classes)
    ensures r.Err? && (forall i :: 0 <= i < |classes| ==> AllOpen(classes[i].maps)) ==> r.error == EntryCorrupt
  {
    var report := Report(NOTHING, [], 0);
    var i := 0;
    while i < |classes|
      invariant 0 <= i <= |classes|
      invariant Takable(classes[..i]) && True(report, classes[..i])
    {
      assert classes[..i + 1] == classes[..i] + [classes[i]];
      var next := WalkOneMore(report, classes[i], classes[..i]);
      if next.Err? {
        if Takable(classes) { TakablePrefix(classes, i + 1); }
        return next;
      }
      report := next.value;
      i := i + 1;
    }
    assert classes[..i] == classes;
    r := Ok(report);
  }

  // ------------------------------------------------------------------
  // The figures told of the maps
  // ------------------------------------------------------------------

  /** What a generation allocates is all accounted for. */
  predicate Balanced(f: Figures) {
    f.residual.Some? ==> f.residual.value + f.occupied + f.empty + f.metadata + f.spare == f.segment
  }

  /** The model of a generation does not come to more than it allocated. */
  predicate WithinSegment(l: Layout, m: Map) {
    m.spare + Times(m.buckets, l.slot) + (m.buckets / 15 + 1) * 16 <= m.segment
  }

  lemma GenerationFigures(l: Layout, m: Map)
    requires Laid(l) && Clean(l, m)
    ensures var f := Measured(l, m);
            && f.segment == m.segment && f.spare == m.spare && f.bytes == m.bytes
            && f.padding == Times(|m.sizes|, l.padding) && f.occupied == Times(|m.sizes|, l.slot)
            && f.occupied + f.empty == Times(m.buckets, l.slot) && f.metadata == (m.buckets / 15 + 1) * 16
            && (f.residual.Some? <==> WithinSegment(l, m)) && Balanced(f)
  {
    SharedOut(l, m);
  }

  /** The numbers a generation is mapped with. */
  datatype Number = Segment | Spare | FileBytes | Buckets | GroupBytes

  function Of(m: Map, n: Number): nat {
    match n
    case Segment => m.segment
    case Spare => m.spare
    case FileBytes => m.bytes
    case Buckets => m.buckets
    case GroupBytes => (m.buckets / 15 + 1) * 16
  }

  function Each(maps: seq<Map>, n: Number): (r: seq<nat>)
    ensures |r| == |maps| && forall i :: 0 <= i < |maps| ==> r[i] == Of(maps[i], n)
  {
    seq(|maps|, i requires 0 <= i < |maps| => Of(maps[i], n))
  }

  lemma EachOneMore(maps: seq<Map>, m: Map, n: Number)
    ensures Total(Each(maps + [m], n)) == Total(Each(maps, n)) + Of(m, n)
  {
    assert Each(maps + [m], n)[..|maps|] == Each(maps, n);
  }

  /** Every figure of a class but those its entries give, as a sum over its generations. */
  ghost predicate OfTheMaps(l: Layout, maps: seq<Map>, sum: Figures) {
    && sum.segment == Total(Each(maps, Segment)) && sum.spare == Total(Each(maps, Spare)) && sum.bytes == Total(Each(maps, FileBytes))
    && sum.metadata == Total(Each(maps, GroupBytes))
    && sum.padding == Times(|SizesOf(maps)|, l.padding) && sum.occupied == Times(|SizesOf(maps)|, l.slot)
    && sum.occupied + sum.empty == Times(Total(Each(maps, Buckets)), l.slot)
  }

  /** There is a residual exactly when no generation's model comes to more than it allocated; and it is what the slots,
      their metadata and the spare bytes leave of the segments. */
  ghost predicate ResidualOf(l: Layout, maps: seq<Map>, sum: Figures) {
    (sum.residual.Some? <==> forall i :: 0 <= i < |maps| ==> WithinSegment(l, maps[i])) && Balanced(sum)
  }

  lemma SlotsOneMore(l: Layout, before: seq<Map>, m: Map)
    requires SizesOf(before + [m]) == SizesOf(before) + m.sizes
    ensures var sizes := SizesOf(before + [m]);
            && Times(|sizes|, l.padding) == Times(|SizesOf(before)|, l.padding) + Times(|m.sizes|, l.padding)
            && Times(|sizes|, l.slot) == Times(|SizesOf(before)|, l.slot) + Times(|m.sizes|, l.slot)
            && Times(Total(Each(before + [m], Buckets)), l.slot) == Times(Total(Each(before, Buckets)), l.slot) + Times(m.buckets, l.slot)
  {
    EachOneMore(before, m, Buckets);
    TimesBoth(|SizesOf(before)|, |m.sizes|, l.padding);
    TimesBoth(|SizesOf(before)|, |m.sizes|, l.slot);
    TimesBoth(Total(Each(before, Buckets)), m.buckets, l.slot);
  }

  lemma MapsOneMore(l: Layout, before: seq<Map>, m: Map, a: Figures, b: Figures)
    requires Laid(l) && Clean(l, m) && OfTheMaps(l, before, a) && b == Measured(l, m)
    requires SizesOf(before + [m]) == SizesOf(before) + m.sizes
    ensures OfTheMaps(l, before + [m], Plus(a, b))
  {
    GenerationFigures(l, m);
    EachOneMore(before, m, Segment);
    EachOneMore(before, m, Spare);
    EachOneMore(before, m, FileBytes);
    EachOneMore(before, m, GroupBytes);
    SlotsOneMore(l, before, m);
  }

  lemma ResidualOneMore(l: Layout, before: seq<Map>, m: Map, a: Figures, b: Figures)
    requires Laid(l) && Clean(l, m) && ResidualOf(l, before, a) && b == Measured(l, m)
    ensures ResidualOf(l, before + [m], Plus(a, b))
  {
    GenerationFigures(l, m);
    var more := before + [m];
    assert more[|before|] == m && forall i :: 0 <= i < |before| ==> more[i] == before[i];
  }

  lemma {:induction false} ClassFigures(l: Layout, maps: seq<Map>)
    requires Laid(l) && AllClean(l, maps)
    ensures OfTheMaps(l, maps, ClassSum(l, maps)) && ResidualOf(l, maps, ClassSum(l, maps))
  {
    if maps != [] {
      var before, m := maps[..|maps| - 1], maps[|maps| - 1];
      assert maps == before + [m];
      ClassSumOneMore(l, before, m);
      ClassFigures(l, before);
      MapsOneMore(l, before, m, ClassSum(l, before), Measured(l, m));
      ResidualOneMore(l, before, m, ClassSum(l, before), Measured(l, m));
    }
  }

  // ------------------------------------------------------------------
  // And of the whole report
  // ------------------------------------------------------------------

  datatype Figure = Entries | Payload | Unspent | Padding | Segments | Spares | Files | Occupied | Empty | Metadata

  function Read(f: Figures, of: Figure): nat {
    match of
    case Entries => f.entries
    case Payload => f.payload
    case Unspent => f.unused
    case Padding => f.padding
    case Segments => f.segment
    case Spares => f.spare
    case Files => f.bytes
    case Occupied => f.occupied
    case Empty => f.empty
    case Metadata => f.metadata
  }

  function Column(parts: seq<Figures>, of: Figure): (r: seq<nat>)
    ensures |r| == |parts| && forall i :: 0 <= i < |parts| ==> r[i] == Read(parts[i], of)
  {
    seq(|parts|, i requires 0 <= i < |parts| => Read(parts[i], of))
  }

  lemma {:induction false} ColumnAdds(parts: seq<Figures>, of: Figure)
    ensures Read(SumOf(parts), of) == Total(Column(parts, of))
    decreases |parts|
  {
    if parts != [] {
      ColumnAdds(parts[..|parts| - 1], of);
      assert Column(parts, of)[..|parts| - 1] == Column(parts[..|parts| - 1], of);
    }
  }

  lemma {:induction false} ResidualAdds(parts: seq<Figures>)
    requires forall i :: 0 <= i < |parts| ==> Balanced(parts[i])
    ensures SumOf(parts).residual.Some? <==> forall i :: 0 <= i < |parts| ==> parts[i].residual.Some?
    ensures Balanced(SumOf(parts))
    decreases |parts|
  {
    if parts != [] { ResidualAdds(parts[..|parts| - 1]); }
  }

  lemma {:induction false} WholeIsSum(classes: seq<Class>, parts: seq<Figures>)
    requires |parts| == |classes| && forall i :: 0 <= i < |classes| ==> parts[i] == SumOfClass(classes[i])
    ensures WholeSum(classes) == SumOf(parts)
    decreases |classes|
  {
    if classes != [] { WholeIsSum(classes[..|classes| - 1], parts[..|parts| - 1]); }
  }

  function Sums(classes: seq<ClassCensus>): (r: seq<Figures>)
    ensures |r| == |classes| && forall i :: 0 <= i < |classes| ==> r[i] == classes[i].sums
  {
    seq(|classes|, i requires 0 <= i < |classes| => classes[i].sums)
  }

  /** Every figure of a true report: those of a class add up over its generations, those of the report over its classes,
      and where there is a residual everything allocated is accounted for. */
  lemma ReportFigures(report: Report, classes: seq<Class>)
    requires True(report, classes) && Sensible(classes) && forall i :: 0 <= i < |classes| ==> Readable(classes[i])
    ensures forall of :: Read(report.sums, of) == Total(Column(Sums(report.classes), of))
    ensures forall i :: 0 <= i < |classes| ==>
              OfTheMaps(classes[i].layout, Opened(classes[i].maps), report.classes[i].sums)
              && ResidualOf(classes[i].layout, Opened(classes[i].maps), report.classes[i].sums)
    ensures report.sums.residual.Some? <==> forall i :: 0 <= i < |classes| ==> report.classes[i].sums.residual.Some?
    ensures Balanced(report.sums)
  {
    forall i | 0 <= i < |classes|
      ensures OfTheMaps(classes[i].layout, Opened(classes[i].maps), report.classes[i].sums)
      ensures ResidualOf(classes[i].layout, Opened(classes[i].maps), report.classes[i].sums)
    {
      assert Says(report.classes[i], classes[i]);
      ClassFigures(classes[i].layout, Opened(classes[i].maps));
    }
    WholeIsSum(classes, Sums(report.classes));
    forall of ensures Read(report.sums, of) == Total(Column(Sums(report.classes), of)) { ColumnAdds(Sums(report.classes), of); }
    ResidualAdds(Sums(report.classes));
  }
}
