/**
  Sixty-four-bit sums and products that refuse rather than wrap.
*/
module Checked {
  import opened Basics

  const MAX64: nat := 0xFFFF_FFFF_FFFF_FFFF

  lemma QuotientBounds(a: nat, b: nat, n: nat)
    requires a > 0
    ensures b <= n / a <==> a * b <= n
  {
    var q, r := n / a, n % a;
    assert n == a * q + r && 0 <= r < a;
    if b <= q {
      assert a * b <= a * q by { LessTimes(a, b, q); }
    } else {
      assert a * (q + 1) <= a * b by { LessTimes(a, q + 1, b); }
      assert a * (q + 1) == a * q + a;
    }
  }

  lemma LessTimes(a: nat, b: nat, c: nat)
    requires b <= c
    ensures a * b <= a * c
  {
  }

  /** `checked_mul`: the division says whether the product would fit, before it is formed. */
  method CheckedMul(a: nat, b: nat) returns (r: Option<nat>)
    requires a <= MAX64 && b <= MAX64
    ensures r == if a * b <= MAX64 then Some(a * b) else None
  {
    if a != 0 {
      QuotientBounds(a, b, MAX64);
      if b > MAX64 / a { return None; }
    }
    r := Some(a * b);
  }

  /** `checked_add`: the difference says whether the sum would. */
  method CheckedAdd(a: nat, b: nat) returns (r: Option<nat>)
    requires a <= MAX64 && b <= MAX64
    ensures r == if a + b <= MAX64 then Some(a + b) else None
  {
    if b > MAX64 - a { return None; }
    r := Some(a + b);
  }

  /** `fits_in_budget`: exact, whatever overflows on the way; the figure it names is exact or the largest there is. */
  method FitsInBudget(capacity: nat, recordBytes: nat, overhead: nat, headroom: nat, budget: nat) returns (fits: bool, peak: nat)
    requires capacity <= MAX64 && recordBytes <= MAX64 && overhead <= MAX64 && headroom <= MAX64 && budget <= MAX64
    ensures fits <==> capacity * recordBytes + overhead + headroom <= budget
    ensures peak == if capacity * recordBytes + overhead + headroom <= MAX64
                    then capacity * recordBytes + overhead + headroom else MAX64
  {
    var reserved := CheckedMul(capacity, recordBytes);
    if reserved.None? { return false, MAX64; }
    var withOverhead := CheckedAdd(reserved.value, overhead);
    if withOverhead.None? { return false, MAX64; }
    var whole := CheckedAdd(withOverhead.value, headroom);
    if whole.None? { return false, MAX64; }
    peak := whole.value;
    fits := peak <= budget;
  }

  /** The budget that is left for records, in records, is exactly what it accepts. */
  lemma FitsWhenRecordsDo(capacity: nat, recordBytes: nat, overhead: nat, headroom: nat, budget: nat)
    requires recordBytes > 0 && overhead + headroom <= budget
    ensures capacity * recordBytes + overhead + headroom <= budget <==>
              capacity <= (budget - headroom - overhead) / recordBytes
  {
    QuotientBounds(recordBytes, capacity, budget - headroom - overhead);
    assert capacity * recordBytes == recordBytes * capacity;
  }
}
