/**
 The sliding window behind backend health: points are rounded into buckets, buckets that fall out of
 the window are evicted, and running totals are kept beside them.

 Sums are exact (`real`). The clock is a parameter. The insertion-ordered hash map of buckets is a
 sequence of buckets with distinct keys.
 */
module SlidingWindow {

  import opened Arithmetic

  type Time = int

  const SECOND: Time := 1_000_000_000

  datatype Bucket = Bucket(key: Time, sum: real, qty: nat)

  datatype Point = Point(t: Time, val: real)

  /** Go's `Time.Round`: to the nearest multiple, halves up; no rounding for a non-positive size. */
  function Round(t: Time, d: Time): Time {
    if d <= 0 then t
    else
      var r := t % d;
      if r + r < d then t - r else t + (d - r)
  }

  /** A key is the multiple of the bucket size nearest to the point, the later one for a point half way between. */
  lemma RoundIsNearest(t: Time, d: Time)
    ensures 0 < d ==> Round(t, d) % d == 0 && -d < 2 * (Round(t, d) - t) <= d
    ensures d <= 0 ==> Round(t, d) == t
  {
    if 0 < d {
      var q := t / d;
      assert t - t % d == q * d && t + (d - t % d) == (q + 1) * d;
      MultipleOf(q, d);
      MultipleOf(q + 1, d);
    }
  }

  lemma MultipleOf(q: int, d: int)
    requires 0 < d
    ensures (q * d) % d == 0
  {
    var k := (q * d) / d;
    var m := (q * d) % d;
    assert (q - k) * d == m;
    if q - k >= 1 {
      MulMonotone(1, q - k, d);
    } else if q - k <= -1 {
      MulMonotone(q - k, -1, d);
    }
  }

  lemma RoundMonotone(s: Time, t: Time, d: Time)
    requires s <= t
    ensures Round(s, d) <= Round(t, d)
  {
    if 0 < d {
      FloorsOrdered(s, t, d);
    }
  }

  // ---------- totals over buckets and over the log ----------

  function SumOf(bs: seq<Bucket>): real {
    if bs == [] then 0.0 else SumOf(bs[..|bs| - 1]) + bs[|bs| - 1].sum
  }

  function QtyOf(bs: seq<Bucket>): nat {
    if bs == [] then 0 else QtyOf(bs[..|bs| - 1]) + bs[|bs| - 1].qty
  }

  lemma {:induction false} TotalsConcat(s: seq<Bucket>, t: seq<Bucket>)
    ensures SumOf(s + t) == SumOf(s) + SumOf(t) && QtyOf(s + t) == QtyOf(s) + QtyOf(t)
    decreases |t|
  {
    if t == [] {
      assert s + t == s;
    } else {
      var n := |t| - 1;
      assert (s + t)[..|s + t| - 1] == s + t[..n];
      TotalsConcat(s, t[..n]);
    }
  }

  /** The buckets with keys after `w`, in order. */
  function After(bs: seq<Bucket>, w: Time): seq<Bucket> {
    if bs == [] then []
    else
      var n := |bs| - 1;
      After(bs[..n], w) + if w < bs[n].key then [bs[n]] else []
  }

  function LogSum(log: seq<Point>, d: Time, lo: Time, hi: Time): real {
    if log == [] then 0.0
    else
      var p := log[|log| - 1];
      LogSum(log[..|log| - 1], d, lo, hi) + if lo < Round(p.t, d) <= hi then p.val else 0.0
  }

  function LogQty(log: seq<Point>, d: Time, lo: Time, hi: Time): nat {
    if log == [] then 0
    else
      var p := log[|log| - 1];
      LogQty(log[..|log| - 1], d, lo, hi) + if lo < Round(p.t, d) <= hi then 1 else 0
  }

  // ---------- buckets as a map in insertion order ----------

  predicate DistinctKeys(bs: seq<Bucket>) {
    forall i, j :: 0 <= i < j < |bs| ==> bs[i].key != bs[j].key
  }

  predicate Ascending(bs: seq<Bucket>) {
    forall i, j :: 0 <= i < j < |bs| ==> bs[i].key < bs[j].key
  }

  function Find(bs: seq<Bucket>, key: Time): (i: nat)
    ensures i <= |bs|
    ensures i < |bs| ==> bs[i].key == key
    ensures forall j :: 0 <= j < i ==> bs[j].key != key
  {
    if bs == [] || bs[0].key == key then 0 else 1 + Find(bs[1..], key)
  }

  /** Eviction looks at the oldest insertion first and stops at the first bucket still in the window. */
  function Evict(bs: seq<Bucket>, w: Time): seq<Bucket> {
    if bs != [] && bs[0].key <= w then Evict(bs[1..], w) else bs
  }

  /** Eviction drops a prefix of buckets that are all out of the window. */
  lemma {:induction false} EvictShape(bs: seq<Bucket>, w: Time) returns (k: nat)
    ensures k <= |bs| && Evict(bs, w) == bs[k..]
    ensures forall i :: 0 <= i < k ==> bs[i].key <= w
    ensures k < |bs| ==> w < bs[k].key
  {
    if bs != [] && bs[0].key <= w {
      var j := EvictShape(bs[1..], w);
      k := j + 1;
      assert bs[1..][j..] == bs[k..];
      forall i | 0 < i < k ensures bs[i].key <= w {
        assert bs[i] == bs[1..][i - 1];
      }
    } else {
      k := 0;
    }
  }

  function Insert(bs: seq<Bucket>, key: Time, val: real): seq<Bucket> {
    var i := Find(bs, key);
    if i < |bs| then bs[i := Bucket(key, bs[i].sum + val, bs[i].qty + 1)]
    else bs + [Bucket(key, val, 1)]
  }

  lemma SplitTotals(bs: seq<Bucket>, i: nat)
    requires i < |bs|
    ensures SumOf(bs) == SumOf(bs[..i]) + bs[i].sum + SumOf(bs[i + 1..])
    ensures QtyOf(bs) == QtyOf(bs[..i]) + bs[i].qty + QtyOf(bs[i + 1..])
  {
    assert bs == bs[..i] + [bs[i]] + bs[i + 1..];
    TotalsConcat(bs[..i] + [bs[i]], bs[i + 1..]);
    TotalsConcat(bs[..i], [bs[i]]);
    assert [bs[i]][..0] == [];
  }

  lemma OldestTotals(bs: seq<Bucket>)
    requires bs != [] && DistinctKeys(bs)
    ensures SumOf(bs) == bs[0].sum + SumOf(bs[1..]) && QtyOf(bs) == bs[0].qty + QtyOf(bs[1..])
    ensures DistinctKeys(bs[1..])
  {
    SplitTotals(bs, 0);
    assert bs[..0] == [];
  }

  lemma InsertTotals(bs: seq<Bucket>, key: Time, val: real)
    ensures SumOf(Insert(bs, key, val)) == SumOf(bs) + val
    ensures QtyOf(Insert(bs, key, val)) == QtyOf(bs) + 1
  {
    var i := Find(bs, key);
    var cs := Insert(bs, key, val);
    if i < |bs| {
      SplitTotals(bs, i);
      SplitTotals(cs, i);
      assert cs[..i] == bs[..i] && cs[i + 1..] == bs[i + 1..];
    } else {
      assert cs[..|bs|] == bs;
    }
  }

  // ---------- the log a window stands for ----------

  /** From `mark` on, the buckets hold exactly the log. */
  ghost predicate Mirrors(bs: seq<Bucket>, log: seq<Point>, d: Time, mark: Time, now: Time) {
    forall w :: mark <= w ==>
      && SumOf(After(bs, w)) == LogSum(log, d, w, now)
      && QtyOf(After(bs, w)) == LogQty(log, d, w, now)
  }

  lemma {:induction false} AfterAll(bs: seq<Bucket>, w: Time)
    requires forall i :: 0 <= i < |bs| ==> w < bs[i].key
    ensures After(bs, w) == bs
  {
    if bs != [] {
      AfterAll(bs[..|bs| - 1], w);
    }
  }

  lemma {:induction false} AfterNone(bs: seq<Bucket>, w: Time)
    requires forall i :: 0 <= i < |bs| ==> bs[i].key <= w
    ensures After(bs, w) == []
  {
    if bs != [] {
      AfterNone(bs[..|bs| - 1], w);
    }
  }

  lemma {:induction false} AfterConcat(s: seq<Bucket>, t: seq<Bucket>, w: Time)
    ensures After(s + t, w) == After(s, w) + After(t, w)
    decreases |t|
  {
    if t == [] {
      assert s + t == s;
    } else {
      assert (s + t)[..|s + t| - 1] == s + t[..|t| - 1];
      AfterConcat(s, t[..|t| - 1], w);
    }
  }

  /** What eviction removed is before any later window. */
  lemma EvictKeepsAfter(bs: seq<Bucket>, ws: Time, w: Time)
    requires ws <= w
    ensures After(Evict(bs, ws), w) == After(bs, w)
  {
    var k := EvictShape(bs, ws);
    assert bs == bs[..k] + bs[k..];
    AfterConcat(bs[..k], bs[k..], w);
    AfterNone(bs[..k], w);
  }

  lemma AscendingEvicted(bs: seq<Bucket>, ws: Time, hi: Time)
    requires Ascending(bs) && forall i :: 0 <= i < |bs| ==> bs[i].key <= hi
    ensures Ascending(Evict(bs, ws)) && forall i :: 0 <= i < |Evict(bs, ws)| ==> ws < Evict(bs, ws)[i].key <= hi
  {
    var k := EvictShape(bs, ws);
    forall i | k < i < |bs| ensures ws < bs[i].key {
      assert bs[k].key < bs[i].key;
    }
  }

  /** A point at the newest key lands in the last bucket, or in a new one behind it. */
  lemma InsertNewest(bs: seq<Bucket>, key: Time, val: real, w: Time)
    requires Ascending(bs) && forall i :: 0 <= i < |bs| ==> bs[i].key <= key
    ensures Ascending(Insert(bs, key, val))
    ensures forall i :: 0 <= i < |Insert(bs, key, val)| ==> Insert(bs, key, val)[i].key <= key
    ensures w < key ==>
              && SumOf(After(Insert(bs, key, val), w)) == SumOf(After(bs, w)) + val
              && QtyOf(After(Insert(bs, key, val), w)) == QtyOf(After(bs, w)) + 1
    ensures key <= w ==> After(Insert(bs, key, val), w) == After(bs, w) == []
  {
    var i := Find(bs, key);
    var cs := Insert(bs, key, val);
    if i < |bs| {
      assert i == |bs| - 1;
      assert cs[..i] == bs[..i];
    } else {
      assert cs[..|bs|] == bs;
      forall j | 0 <= j < |bs| ensures bs[j].key < key {
        assert bs[j].key != key;
      }
    }
    if key <= w {
      AfterNone(bs, w);
      AfterNone(cs, w);
    } else {
      if i < |bs| {
        LastTotals(bs, w);
      }
      LastTotals(cs, w);
    }
  }

  lemma LastTotals(bs: seq<Bucket>, w: Time)
    requires bs != [] && w < bs[|bs| - 1].key
    ensures SumOf(After(bs, w)) == SumOf(After(bs[..|bs| - 1], w)) + bs[|bs| - 1].sum
    ensures QtyOf(After(bs, w)) == QtyOf(After(bs[..|bs| - 1], w)) + bs[|bs| - 1].qty
  {
    assert After(bs, w)[..|After(bs, w)| - 1] == After(bs[..|bs| - 1], w);
  }

  lemma {:induction false} LogUpTo(log: seq<Point>, d: Time, lo: Time, hi: Time, hi': Time)
    requires hi <= hi' && forall i :: 0 <= i < |log| ==> Round(log[i].t, d) <= hi
    ensures LogSum(log, d, lo, hi) == LogSum(log, d, lo, hi')
    ensures LogQty(log, d, lo, hi) == LogQty(log, d, lo, hi')
  {
    if log != [] {
      LogUpTo(log[..|log| - 1], d, lo, hi, hi');
    }
  }

  lemma LogExtend(log: seq<Point>, p: Point, d: Time, lo: Time, hi: Time)
    ensures LogSum(log + [p], d, lo, hi) == LogSum(log, d, lo, hi) + if lo < Round(p.t, d) <= hi then p.val else 0.0
    ensures LogQty(log + [p], d, lo, hi) == LogQty(log, d, lo, hi) + if lo < Round(p.t, d) <= hi then 1 else 0
  {
    assert (log + [p])[..|log|] == log;
  }

  /** A point at the newest key extends buckets and log alike. */
  lemma MirrorsInsert(kept: seq<Bucket>, log: seq<Point>, d: Time, ws: Time, key: Time, p: Point)
    requires key == Round(p.t, d)
    requires Ascending(kept) && forall i :: 0 <= i < |kept| ==> kept[i].key <= key
    requires Mirrors(kept, log, d, ws, key)
    ensures var bs := if ws < key then Insert(kept, key, p.val) else kept;
            && Ascending(bs)
            && (forall i :: 0 <= i < |bs| ==> bs[i].key <= key)
            && Mirrors(bs, log + [p], d, ws, key)
  {
    var bs := if ws < key then Insert(kept, key, p.val) else kept;
    InsertNewest(kept, key, p.val, key);
    forall w | ws <= w
      ensures SumOf(After(bs, w)) == LogSum(log + [p], d, w, key)
      ensures QtyOf(After(bs, w)) == LogQty(log + [p], d, w, key)
    {
      InsertNewest(kept, key, p.val, w);
      LogExtend(log, p, d, w, key);
    }
  }

  class AvgSlidingWindow {
    const bucketSize: Time
    const windowLength: Time

    var buckets: seq<Bucket>
    var qty: nat
    var sum: real

    /** Every point ever added with the clock's own time, and the last time the clock showed. */
    ghost var log: seq<Point>
    ghost var clock: Time

    /** The totals are those of the live buckets. */
    ghost predicate Valid()
      reads this
    {
      && DistinctKeys(buckets)
      && qty == QtyOf(buckets)
      && sum == SumOf(buckets)
    }

    /** Between the window start and the clock, the buckets are the log. */
    ghost predicate Faithful()
      reads this
    {
      && Ascending(buckets)
      && (forall i :: 0 <= i < |buckets| ==> buckets[i].key <= Round(clock, bucketSize))
      && (forall i :: 0 <= i < |log| ==> Round(log[i].t, bucketSize) <= Round(clock, bucketSize))
      && Mirrors(buckets, log, bucketSize, WindowStart(clock), Round(clock, bucketSize))
    }

    ghost function WindowStart(now: Time): Time {
      Round(now, bucketSize) - windowLength
    }

    constructor (bucketSize: Time, windowLength: Time, now: Time)
      ensures Valid() && Faithful() && log == [] && clock == now
      ensures this.bucketSize == (if bucketSize == 0 then SECOND else bucketSize)
      ensures this.windowLength == (if windowLength == 0 then 300 * SECOND else windowLength)
    {
      this.bucketSize := if bucketSize == 0 then SECOND else bucketSize;
      this.windowLength := if windowLength == 0 then 300 * SECOND else windowLength;
      buckets, qty, sum, log, clock := [], 0, 0.0, [], now;
    }

    predicate InWindow(t: Time, now: Time) {
      Round(now, bucketSize) - windowLength < t <= Round(now, bucketSize)
    }

    /** Evicts from the front; the unsigned quantity never goes below zero. */
    method EvictUntil(windowStart: Time)
      requires Valid()
      modifies this`buckets, this`qty, this`sum
      ensures Valid()
      ensures buckets == Evict(old(buckets), windowStart)
    {
      while |buckets| > 0 && buckets[0].key <= windowStart
        invariant Valid()
        invariant Evict(buckets, windowStart) == Evict(old(buckets), windowStart)
        decreases |buckets|
      {
        var b := buckets[0];
        OldestTotals(buckets);
        buckets := buckets[1..];
        if |buckets| > 0 {
          qty := qty - b.qty;
          sum := sum - b.sum;
        } else {
          qty := 0;
          sum := 0.0;
        }
      }
    }

    method Advance(now: Time)
      requires Valid()
      modifies this`buckets, this`qty, this`sum
      ensures Valid()
      ensures buckets == Evict(old(buckets), WindowStart(now))
    {
      EvictUntil(Round(now, bucketSize) - windowLength);
    }

    /** Updates one bucket and the totals. */
    method UpdateBucket(key: Time, val: real)
      requires Valid()
      modifies this`buckets, this`qty, this`sum
      ensures Valid()
      ensures buckets == Insert(old(buckets), key, val)
    {
      InsertTotals(buckets, key, val);
      var i := Find(buckets, key);
      var b := if i < |buckets| then buckets[i] else Bucket(key, 0.0, 0);
      var bsum := b.sum;
      b := Bucket(key, bsum + val, b.qty + 1);
      var wsum := sum;
      qty := qty + 1;
      sum := wsum - bsum + b.sum;
      assert sum == wsum + val;
      buckets := if i < |buckets| then buckets[i := b] else buckets + [b];
      assert buckets == Insert(old(buckets), key, val);
    }

    /** A point with any time at all: the totals stay those of the live buckets. */
    method AddWithTime(t: Time, val: real, now: Time)
      requires Valid()
      modifies this`buckets, this`qty, this`sum
      ensures Valid()
      ensures var kept := Evict(old(buckets), WindowStart(now));
              var key := Round(t, bucketSize);
              buckets == if WindowStart(now) < key <= Round(now, bucketSize) then Insert(kept, key, val) else kept
    {
      Advance(now);
      var key := Round(t, bucketSize);
      if !InWindow(key, now) {
        return;
      }
      UpdateBucket(key, val);
    }

    /** Moving the clock forward keeps the mirror, whatever is evicted. */
    lemma AdvanceMirrors(bs: seq<Bucket>, now: Time)
      requires Faithful() && clock <= now && bs == Evict(buckets, WindowStart(now))
      ensures Ascending(bs) && forall i :: 0 <= i < |bs| ==> WindowStart(now) < bs[i].key <= Round(now, bucketSize)
      ensures forall i :: 0 <= i < |log| ==> Round(log[i].t, bucketSize) <= Round(now, bucketSize)
      ensures Mirrors(bs, log, bucketSize, WindowStart(now), Round(now, bucketSize))
    {
      RoundMonotone(clock, now, bucketSize);
      AscendingEvicted(buckets, WindowStart(now), Round(clock, bucketSize));
      forall w | WindowStart(now) <= w
        ensures SumOf(After(bs, w)) == LogSum(log, bucketSize, w, Round(now, bucketSize))
        ensures QtyOf(After(bs, w)) == LogQty(log, bucketSize, w, Round(now, bucketSize))
      {
        EvictKeepsAfter(buckets, WindowStart(now), w);
        LogUpTo(log, bucketSize, w, Round(clock, bucketSize), Round(now, bucketSize));
      }
    }

    method Add(val: real, now: Time)
      requires Valid() && Faithful() && clock <= now
      modifies this
      ensures Valid() && Faithful() && clock == now && log == old(log) + [Point(now, val)]
    {
      AddKeepsFaith(val, now);
      AddWithTime(now, val, now);
      log := log + [Point(now, val)];
      clock := now;
    }

    /** What `Add` leaves behind mirrors the log with the new point. */
    lemma AddKeepsFaith(val: real, now: Time)
      requires Faithful() && clock <= now
      ensures var key := Round(now, bucketSize);
              var kept := Evict(buckets, WindowStart(now));
              var bs := if WindowStart(now) < key then Insert(kept, key, val) else kept;
              var after := log + [Point(now, val)];
              && Ascending(bs)
              && (forall i :: 0 <= i < |bs| ==> bs[i].key <= key)
              && (forall i :: 0 <= i < |after| ==> Round(after[i].t, bucketSize) <= key)
              && Mirrors(bs, after, bucketSize, WindowStart(now), key)
    {
      var kept := Evict(buckets, WindowStart(now));
      AdvanceMirrors(kept, now);
      MirrorsInsert(kept, log, bucketSize, WindowStart(now), Round(now, bucketSize), Point(now, val));
    }

    /** Eviction as every reader does it first. */
    method Refresh(now: Time)
      requires Valid() && Faithful() && clock <= now
      modifies this
      ensures Valid() && Faithful() && clock == now && log == old(log)
      ensures sum == LogSum(log, bucketSize, WindowStart(now), Round(now, bucketSize))
      ensures qty == LogQty(log, bucketSize, WindowStart(now), Round(now, bucketSize))
    {
      AdvanceMirrors(Evict(buckets, WindowStart(now)), now);
      Advance(now);
      clock := now;
      AfterAll(buckets, WindowStart(now));
    }

    /** The sum of the points whose rounded time lies in the window. */
    method Sum(now: Time) returns (r: real)
      requires Valid() && Faithful() && clock <= now
      modifies this
      ensures Valid() && Faithful() && clock == now && log == old(log)
      ensures r == LogSum(log, bucketSize, WindowStart(now), Round(now, bucketSize))
    {
      Refresh(now);
      r := sum;
    }

    method Count(now: Time) returns (r: nat)
      requires Valid() && Faithful() && clock <= now
      modifies this
      ensures Valid() && Faithful() && clock == now && log == old(log)
      ensures r == LogQty(log, bucketSize, WindowStart(now), Round(now, bucketSize))
    {
      Refresh(now);
      r := qty;
    }

    method Avg(now: Time) returns (r: real)
      requires Valid() && Faithful() && clock <= now
      modifies this
      ensures Valid() && Faithful() && clock == now && log == old(log)
      ensures var s := LogSum(log, bucketSize, WindowStart(now), Round(now, bucketSize));
              var q := LogQty(log, bucketSize, WindowStart(now), Round(now, bucketSize));
              r == if q == 0 then 0.0 else s / q as real
    {
      Refresh(now);
      if qty == 0 {
        return 0.0;
      }
      r := sum / qty as real;
    }
  }
}
