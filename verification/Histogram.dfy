/** The latency histogram: 58 ranges of 128 buckets whose width doubles from range to range. */
module Histogram {
  const SHIFT := 7
  const LSB := 64 - SHIFT
  const PER_RANGE := 128
  const RANGES := LSB + 1
  const LIMIT := 0x1_0000_0000_0000_0000

  function Pow2(n: nat): (p: nat)
    ensures p > 0
  {
    if n == 0 then 1 else 2 * Pow2(n - 1)
  }

  lemma {:induction false} Pow2Add(a: nat, b: nat)
    ensures Pow2(a + b) == Pow2(a) * Pow2(b)
  {
    if a > 0 { Pow2Add(a - 1, b); }
  }

  lemma Doubled(n: nat, m: nat, v: nat)
    requires Pow2(n) == v && m == n + n
    ensures Pow2(m) == v * v
  {
    Pow2Add(n, n);
  }

  lemma LimitIs()
    ensures Pow2(64) == LIMIT
  {
    assert Pow2(8) == 256;
    Doubled(8, 16, 256);
    Doubled(16, 32, 0x1_0000);
    Doubled(32, 64, 0x1_0000_0000);
  }

  /** The number of zero bits above the highest one of a 64-bit number. */
  function Clz(d: nat): (c: nat)
    requires 0 < d < LIMIT
    ensures c <= 63 && Pow2(63 - c) <= d < Pow2(64 - c)
  {
    LimitIs();
    HighBit(d, 63)
  }

  function HighBit(d: nat, k: nat): (c: nat)
    requires k <= 63 && 0 < d < Pow2(k + 1)
    ensures 63 - k <= c <= 63 && Pow2(63 - c) <= d < Pow2(64 - c)
  {
    if Pow2(k) <= d then 63 - k else HighBit(d, k - 1)
  }

  function RangeOf(d: nat): nat
    requires 0 < d < LIMIT
  {
    var clz := Clz(d);
    if clz <= LSB then LSB - clz else 0
  }

  function IndexOf(d: nat, range: nat): nat {
    (d / Pow2(if range == 0 then 0 else range - 1)) % PER_RANGE
  }

  /** Where bucket `index` of `range` ends, before it is cut to 64 bits. */
  function EndOf(range: nat, index: nat): nat {
    if range > 0 then Pow2(range + SHIFT - 1) + (index + 1) * Pow2(range - 1) else index + 1
  }

  /** Where it starts: where the bucket before it ends. */
  function StartOf(range: nat, index: nat): nat {
    if index > 0 then EndOf(range, index - 1) else if range > 0 then EndOf(range - 1, PER_RANGE - 1) else 0
  }

  // ---------- the buckets tile the 64-bit numbers ----------

  /** Every range starts at a power of two. */
  lemma RangeStart(range: nat)
    ensures range > 0 ==> StartOf(range, 0) == Pow2(range + SHIFT - 1)
    ensures EndOf(range, PER_RANGE - 1) == Pow2(range + SHIFT)
  {
    if range > 0 {
      Pow2Add(SHIFT, range - 1);
      assert Pow2(SHIFT) == 128;
    } else { assert Pow2(SHIFT) == 128; }
    if range > 1 {
      Pow2Add(SHIFT, range - 2);
      assert Pow2(SHIFT) == 128;
    }
  }

  lemma StartIs(range: nat, index: nat)
    ensures range > 0 ==> StartOf(range, index) == (PER_RANGE + index) * Pow2(range - 1)
    ensures range == 0 ==> StartOf(range, index) == index
  {
    if range > 0 {
      RangeStart(range);
      Pow2Add(SHIFT, range - 1);
      assert Pow2(SHIFT) == 128;
    }
  }

  /** No bucket is empty, the first starts at 0, and the last ends at 2^64. */
  lemma Tiles(range: nat, index: nat)
    ensures StartOf(range, index) < EndOf(range, index)
    ensures StartOf(0, 0) == 0 && EndOf(RANGES - 1, PER_RANGE - 1) == LIMIT
  {
    RangeStart(RANGES - 1);
    LimitIs();
    if index == 0 && range > 0 { RangeStart(range); }
  }

  lemma EndIs(range: nat, index: nat)
    ensures range > 0 ==> EndOf(range, index) == (PER_RANGE + index + 1) * Pow2(range - 1)
  {
    if range > 0 {
      Pow2Add(SHIFT, range - 1);
      assert Pow2(SHIFT) == 128;
    }
  }

  /** Every datapoint lies in the bucket it is tallied in. */
  lemma InItsBucket(d: nat, range: nat, index: nat)
    requires 0 < d < LIMIT && range == RangeOf(d) && index == IndexOf(d, range)
    ensures range < RANGES && index < PER_RANGE && StartOf(range, index) <= d < EndOf(range, index)
  {
    if range == 0 {
      LowRange(Clz(d));
      assert d / 1 == d;
      StartIs(range, index);
    } else {
      RangeBounds(d, range);
      HighBucket(d, range, index);
    }
  }

  lemma HighBucket(d: nat, range: nat, index: nat)
    requires range > 0 && index == IndexOf(d, range)
    requires PER_RANGE * Pow2(range - 1) <= d < 2 * PER_RANGE * Pow2(range - 1)
    ensures index < PER_RANGE && StartOf(range, index) <= d < EndOf(range, index)
  {
    var w := Pow2(range - 1);
    var q := d / w;
    StartIs(range, index);
    EndIs(range, index);
    Quotient(d, w, q);
    assert q == PER_RANGE + index;
  }

  lemma RangeBounds(d: nat, range: nat)
    requires 0 < d < LIMIT && range == RangeOf(d) > 0
    ensures PER_RANGE * Pow2(range - 1) <= d < 2 * PER_RANGE * Pow2(range - 1)
  {
    var clz := Clz(d);
    assert 63 - clz == SHIFT + (range - 1);
    Pow2Add(SHIFT, range - 1);
    assert Pow2(SHIFT) == 128;
    assert Pow2(64 - clz) == 2 * Pow2(63 - clz);
  }

  lemma LowRange(clz: nat)
    requires LSB <= clz <= 63
    ensures Pow2(64 - clz) <= 128
  {
    assert Pow2(7) == 128;
    Pow2Mono(64 - clz, 7);
  }

  lemma {:induction false} Pow2Mono(a: nat, b: nat)
    requires a <= b
    ensures Pow2(a) <= Pow2(b)
  {
    if a < b { Pow2Mono(a, b - 1); }
  }

  lemma MulMono(a: nat, b: nat, w: nat)
    ensures a <= b ==> a * w <= b * w
  {
  }

  lemma Quotient(d: nat, w: nat, q: nat)
    requires w > 0 && q == d / w && PER_RANGE * w <= d < 2 * PER_RANGE * w
    ensures q % PER_RANGE == q - PER_RANGE && q * w <= d < (q + 1) * w
  {
    var r := d % w;
    assert d == q * w + r && (q + 1) * w == q * w + w;
    MulMono(q + 1, PER_RANGE, w);
    MulMono(2 * PER_RANGE, q, w);
  }

  // ---------- buckets in order ----------

  function Lo(k: nat): nat { StartOf(k / PER_RANGE, k % PER_RANGE) }

  function Hi(k: nat): nat { EndOf(k / PER_RANGE, k % PER_RANGE) }

  lemma NoGap(k: nat)
    ensures Lo(k) < Hi(k) == Lo(k + 1)
  {
    Tiles(k / PER_RANGE, k % PER_RANGE);
    if k % PER_RANGE == PER_RANGE - 1 { assert (k + 1) / PER_RANGE == k / PER_RANGE + 1; }
    else { assert (k + 1) / PER_RANGE == k / PER_RANGE; }
  }

  lemma {:induction false} LoMono(k: nat, m: nat)
    requires k <= m
    ensures Lo(k) <= Lo(m)
  {
    if k < m {
      NoGap(m - 1);
      LoMono(k, m - 1);
    }
  }

  /** Every start fits in 64 bits, and every end but the last: only that one is cut. */
  lemma StartFits(k: nat)
    requires k < RANGES * PER_RANGE
    ensures Lo(k) < LIMIT && (Hi(k) < LIMIT <==> k < RANGES * PER_RANGE - 1)
  {
    Tiles(0, 0);
    NoGap(k);
    NoGap(RANGES * PER_RANGE - 1);
    LoMono(k, RANGES * PER_RANGE - 1);
    if k < RANGES * PER_RANGE - 1 { LoMono(k + 1, RANGES * PER_RANGE - 1); }
  }

  /** A number lies in at most one bucket. */
  lemma OneBucket(d: nat, k: nat, m: nat)
    requires Lo(k) <= d < Hi(k) && Lo(m) <= d < Hi(m)
    ensures k == m
  {
    NoGap(k);
    NoGap(m);
    if k < m { LoMono(k + 1, m); } else if m < k { LoMono(m + 1, k); }
  }

  // ---------- counting ----------

  /** How many of `seen` lie from `lo` up to `hi`. */
  function Within(seen: seq<nat>, lo: nat, hi: nat): nat {
    if seen == [] then 0
    else Within(seen[..|seen| - 1], lo, hi) + (if lo <= seen[|seen| - 1] < hi then 1 else 0)
  }

  lemma {:induction false} WithinAdds(seen: seq<nat>, lo: nat, mid: nat, hi: nat)
    requires lo <= mid <= hi
    ensures Within(seen, lo, hi) == Within(seen, lo, mid) + Within(seen, mid, hi)
  {
    if seen != [] { WithinAdds(seen[..|seen| - 1], lo, mid, hi); }
  }

  lemma {:induction false} WithinAll(seen: seq<nat>, hi: nat)
    requires forall i {:trigger seen[i]} :: 0 <= i < |seen| ==> seen[i] < hi
    ensures Within(seen, 0, hi) == |seen|
  {
    if seen != [] { WithinAll(seen[..|seen| - 1], hi); }
  }

  lemma {:induction false} WithinNone(seen: seq<nat>)
    ensures Within(seen, 0, 0) == 0
  {
    if seen != [] { WithinNone(seen[..|seen| - 1]); }
  }

  lemma WithinAppend(seen: seq<nat>, d: nat, lo: nat, hi: nat)
    ensures Within(seen + [d], lo, hi) == Within(seen, lo, hi) + if lo <= d < hi then 1 else 0
  {
    assert (seen + [d])[..|seen|] == seen;
  }

  /** What the callback is told of a bucket. */
  datatype Report = Report(start: nat, end: nat, count: nat, total: nat, soFar: nat)

  class HistogramData {
    const bucket: array2<nat>
    /** The datapoints tallied since the last reset. */
    ghost var seen: seq<nat>

    ghost predicate Holds(i: nat, j: nat)
      reads this, bucket
      requires bucket.Length0 == RANGES && bucket.Length1 == PER_RANGE && i < RANGES && j < PER_RANGE
    {
      bucket[i, j] == Within(seen, StartOf(i, j), EndOf(i, j))
    }

    /** Every bucket holds the number of datapoints between its start and its end. */
    ghost predicate Valid()
      reads this, bucket
    {
      && bucket.Length0 == RANGES && bucket.Length1 == PER_RANGE
      && (forall i {:trigger seen[i]} :: 0 <= i < |seen| ==> 0 < seen[i] < LIMIT)
      && (forall i, j {:trigger Holds(i, j)} :: 0 <= i < RANGES && 0 <= j < PER_RANGE ==> Holds(i, j))
    }

    constructor ()
      ensures Valid() && seen == [] && fresh(bucket)
    {
      bucket := new nat[RANGES, PER_RANGE]((i, j) => 0);
      seen := [];
    }

    method Tally(datapoint: nat)
      requires Valid() && 0 < datapoint < LIMIT
      modifies this, bucket
      ensures Valid() && seen == old(seen) + [datapoint]
    {
      var range := RangeOf(datapoint);
      var index := IndexOf(datapoint, range);
      InItsBucket(datapoint, range, index);
      bucket[range, index] := bucket[range, index] + 1;
      seen := seen + [datapoint];
      forall i, j | 0 <= i < RANGES && 0 <= j < PER_RANGE ensures Holds(i, j) {
        assert old(Holds(i, j));
        WithinAppend(old(seen), datapoint, StartOf(i, j), EndOf(i, j));
        if StartOf(i, j) <= datapoint < EndOf(i, j) { SameBucket(datapoint, range, index, i, j); }
      }
    }

    /** The reports tell, of each bucket in order, how many datapoints lie in it and how many below its end. The end of
        the last bucket is cut to 0. */
    method Iterate() returns (reports: seq<Report>)
      requires Valid()
      ensures |reports| == RANGES * PER_RANGE
      ensures forall k {:trigger reports[k]} :: 0 <= k < |reports| ==>
                reports[k] == Report(Lo(k), Hi(k) % LIMIT, Within(seen, Lo(k), Hi(k)), |seen|, Within(seen, 0, Hi(k)))
    {
      var total := Total();
      reports := [];
      var soFar, last, start := 0, 0, 0;
      WithinNone(seen);
      for i := 0 to RANGES
        invariant |reports| == i * PER_RANGE && start == Lo(i * PER_RANGE) && soFar == Within(seen, 0, start)
        invariant forall k {:trigger reports[k]} :: 0 <= k < |reports| ==> Told(reports[k], k)
      {
        for j := 0 to PER_RANGE
          invariant |reports| == i * PER_RANGE + j && start == Lo(i * PER_RANGE + j) && soFar == Within(seen, 0, start)
          invariant forall k {:trigger reports[k]} :: 0 <= k < |reports| ==> Told(reports[k], k)
        {
          var count := bucket[i, j];
          assert Holds(i, j);
          soFar := soFar + count;
          last := start;
          start := EndOf(i, j);
          Next(i, j);
          WithinAdds(seen, 0, last, start);
          reports := reports + [Report(last, start % LIMIT, count, total, soFar)];
        }
      }
    }

    ghost predicate Told(r: Report, k: nat)
      reads this
    {
      r == Report(Lo(k), Hi(k) % LIMIT, Within(seen, Lo(k), Hi(k)), |seen|, Within(seen, 0, Hi(k)))
    }

    method Total() returns (total: nat)
      requires Valid()
      ensures total == |seen|
    {
      total := 0;
      WithinNone(seen);
      for i := 0 to RANGES
        invariant total == Within(seen, 0, Lo(i * PER_RANGE))
      {
        for j := 0 to PER_RANGE
          invariant total == Within(seen, 0, Lo(i * PER_RANGE + j))
        {
          assert Holds(i, j);
          Next(i, j);
          WithinAdds(seen, 0, StartOf(i, j), EndOf(i, j));
          total := total + bucket[i, j];
        }
      }
      Tiles(0, 0);
      NoGap(RANGES * PER_RANGE - 1);
      WithinAll(seen, LIMIT);
    }
  }

  lemma Next(i: nat, j: nat)
    requires j < PER_RANGE
    ensures var k := i * PER_RANGE + j; Lo(k) == StartOf(i, j) < EndOf(i, j) == Hi(k) == Lo(k + 1)
  {
    var k := i * PER_RANGE + j;
    assert k / PER_RANGE == i && k % PER_RANGE == j;
    NoGap(k);
  }

  lemma SameBucket(d: nat, i: nat, j: nat, i': nat, j': nat)
    requires j < PER_RANGE && j' < PER_RANGE && StartOf(i, j) <= d < EndOf(i, j) && StartOf(i', j') <= d < EndOf(i', j')
    ensures i == i' && j == j'
  {
    Next(i, j);
    Next(i', j');
    OneBucket(d, i * PER_RANGE + j, i' * PER_RANGE + j');
  }
}
