/**
 * wireless_endpoint/ipv4_gaming_with_qed.py: latency histograms per interval are turned into
 * cumulative percentages, and for each requested percentile the first bucket reaching it gives
 * the latency plotted for that interval ("quality of experience delivered").
 */
module Qed {
  import opened Wrappers
  import opened PyMath

  /** What the SDK reports for one interval of the latency-distribution history. */
  datatype IntervalReading = IntervalReading(
    timestamp: int, rangeMin: int, rangeMax: int, packetCount: int, bucketCount: nat,
    belowMin: int, buckets: seq<int>, aboveMax: int)

  /**
   * The histogram dict of one interval; `cumulative` is the 'cumulative_buckets' key, absent
   * (None) until `make_cumulative` adds it.
   */
  datatype Histogram = Histogram(
    timestamp: int, rangeMin: int, rangeMax: int, packetCount: int,
    below: int, inBuckets: int, buckets: seq<int>, above: int,
    cumulative: Option<seq<real>>)

  function Sum(s: seq<int>): int
  {
    if s == [] then 0 else Sum(s[..|s| - 1]) + s[|s| - 1]
  }

  lemma {:induction false} SumZeros(n: nat)
    ensures Sum(seq(n, _ => 0)) == 0
  {
    if n > 0 {
      assert seq(n, _ => 0)[..n - 1] == seq(n - 1, _ => 0);
      SumZeros(n - 1);
    }
  }

  /**
   * One entry of `get_buckets`: an interval without packets gets `bucket_count` zero buckets and
   * zero counts; otherwise the reported counts, with the in-bucket count their sum.
   */
  function Summarise(r: IntervalReading): (h: Histogram)
    ensures h.inBuckets == Sum(h.buckets)
    ensures h.packetCount == r.packetCount && h.timestamp == r.timestamp
    ensures h.rangeMin == r.rangeMin && h.rangeMax == r.rangeMax && h.cumulative.None?
    ensures r.packetCount == 0 ==>
      |h.buckets| == r.bucketCount && (forall i :: 0 <= i < |h.buckets| ==> h.buckets[i] == 0) &&
      h.below == 0 && h.inBuckets == 0 && h.above == 0
    ensures r.packetCount != 0 ==>
      h.buckets == r.buckets && h.below == r.belowMin && h.above == r.aboveMax
  {
    if r.packetCount != 0 then
      Histogram(r.timestamp, r.rangeMin, r.rangeMax, r.packetCount,
                r.belowMin, Sum(r.buckets), r.buckets, r.aboveMax, None)
    else
      SumZeros(r.bucketCount);
      Histogram(r.timestamp, r.rangeMin, r.rangeMax, r.packetCount,
                0, 0, seq(r.bucketCount, _ => 0), 0, None)
  }

  /** `get_buckets`: one histogram per interval of the history, in interval order. */
  method GetBuckets(readings: seq<IntervalReading>) returns (history: seq<Histogram>)
    ensures |history| == |readings|
    ensures forall i :: 0 <= i < |readings| ==> history[i] == Summarise(readings[i])
  {
    history := [];
    for idx := 0 to |readings|
      invariant |history| == idx
      invariant forall i :: 0 <= i < idx ==> history[i] == Summarise(readings[i])
    {
      var interval := readings[idx];
      var below, buckets, inBuckets, above;
      if interval.packetCount != 0 {
        below := interval.belowMin;
        buckets := interval.buckets;
        inBuckets := Sum(buckets);
        above := interval.aboveMax;
      } else {
        below := 0;
        buckets := seq(interval.bucketCount, _ => 0);
        inBuckets := 0;
        above := 0;
      }
      history := history + [Histogram(interval.timestamp, interval.rangeMin, interval.rangeMax,
                                      interval.packetCount, below, inBuckets, buckets, above, None)];
    }
  }

  /** `count / total * 100`. */
  function Percent(count: int, total: int): real
    requires total != 0
  {
    count as real / total as real * 100.0
  }

  /** Entry i is the share (in percent) of packets below the range or in buckets 0..i. */
  function CumulativeSpec(below: int, buckets: seq<int>, total: int): (c: seq<real>)
    requires total != 0 || |buckets| == 0
  {
    seq(|buckets|, i requires 0 <= i < |buckets| => Percent(below + Sum(buckets[..i + 1]), total))
  }

  /**
   * `calculate_cumulative_percentages`: a running count, starting at the below-range count,
   * divided by the total after each bucket. A zero total divides by zero at the first bucket.
   */
  method CalculateCumulativePercentages(below: int, buckets: seq<int>, total: int)
    returns (r: Result<seq<real>>)
    ensures r.Err? <==> total == 0 && |buckets| > 0
    ensures r.Err? ==> r.error == ZeroDivisionError
    ensures r.Ok? ==> r.value == CumulativeSpec(below, buckets, total)
  {
    var cumulative := [];
    var count := below;
    for i := 0 to |buckets|
      invariant count == below + Sum(buckets[..i])
      invariant total != 0 || i == 0
      invariant |cumulative| == i
      invariant forall j :: 0 <= j < i ==> cumulative[j] == Percent(below + Sum(buckets[..j + 1]), total)
    {
      assert buckets[..i + 1][..i] == buckets[..i];
      count := count + buckets[i];
      if total == 0 {
        return Err(ZeroDivisionError);
      }
      cumulative := cumulative + [Percent(count, total)];
    }
    return Ok(cumulative);
  }

  lemma {:induction false} SumPrefixMonotone(b: seq<int>, i: nat, j: nat)
    requires i <= j <= |b|
    requires forall k :: 0 <= k < |b| ==> b[k] >= 0
    ensures Sum(b[..i]) <= Sum(b[..j])
    decreases j - i
  {
    if i < j {
      assert b[..j][..j - 1] == b[..j - 1];
      SumPrefixMonotone(b, i, j - 1);
    }
  }

  /** With non-negative buckets and a positive total the percentages never decrease. */
  lemma CumulativeNondecreasing(below: int, buckets: seq<int>, total: int, i: nat, j: nat)
    requires total > 0
    requires forall k :: 0 <= k < |buckets| ==> buckets[k] >= 0
    requires i <= j < |buckets|
    ensures CumulativeSpec(below, buckets, total)[i] <= CumulativeSpec(below, buckets, total)[j]
  {
    SumPrefixMonotone(buckets, i + 1, j + 1);
    var x := (below + Sum(buckets[..i + 1])) as real;
    var y := (below + Sum(buckets[..j + 1])) as real;
    var t := total as real;
    assert y / t - x / t == (y - x) / t;
  }

  /**
   * The last percentage counts every packet not above the range; when none is above it is
   * exactly 100.
   */
  lemma CumulativeLast(below: int, buckets: seq<int>, above: int, total: int)
    requires total != 0 && |buckets| > 0
    requires total == below + Sum(buckets) + above
    ensures CumulativeSpec(below, buckets, total)[|buckets| - 1] == Percent(total - above, total)
    ensures above == 0 ==> CumulativeSpec(below, buckets, total)[|buckets| - 1] == 100.0
  {
    assert buckets[..|buckets|] == buckets;
    if above == 0 {
      assert total as real / total as real == 1.0;
    }
  }

  /** `make_cumulative`: the histogram with 'cumulative_buckets' added when it has packets. */
  function WithCumulative(h: Histogram): (r: Histogram)
    ensures r.(cumulative := h.cumulative) == h
    ensures h.packetCount == 0 ==> r == h
    ensures h.packetCount != 0 ==>
      r.cumulative.Some? && |r.cumulative.value| == |h.buckets| &&
      forall i :: 0 <= i < |h.buckets| ==>
        r.cumulative.value[i] == Percent(h.below + Sum(h.buckets[..i + 1]), h.packetCount)
  {
    if h.packetCount != 0 then h.(cumulative := Some(CumulativeSpec(h.below, h.buckets, h.packetCount)))
    else h
  }

  method MakeCumulative(h: Histogram) returns (r: Histogram)
    ensures r == WithCumulative(h)
  {
    r := h;
    if h.packetCount != 0 {
      var c := CalculateCumulativePercentages(h.below, h.buckets, h.packetCount);
      r := h.(cumulative := Some(c.value));
    }
  }

  /** Where a percentile falls: below the range, inside bucket `index`, or above the range. */
  datatype RangeType = Below | Inside | Above
  datatype BucketIndex = BucketIndex(rangeType: RangeType, index: int)

  /** The first index whose cumulative percentage reaches `percent`. */
  function FirstReaching(cumulative: seq<real>, percent: real): (r: Option<nat>)
    ensures r.Some? ==>
      r.value < |cumulative| && percent <= cumulative[r.value] &&
      forall j :: 0 <= j < r.value ==> percent > cumulative[j]
    ensures r.None? <==> forall j :: 0 <= j < |cumulative| ==> percent > cumulative[j]
  {
    if cumulative == [] then None
    else if percent <= cumulative[0] then Some(0)
    else match FirstReaching(cumulative[1..], percent)
      case None => None
      case Some(i) => Some(i + 1)
  }

  /**
   * The classification of `get_bucket_index`: BELOW (index -1) exactly when the percentile is
   * at most `below` (a packet count, compared as is); otherwise INSIDE at the first bucket
   * reaching it, or ABOVE (index 0) when none does.
   */
  function Locate(below: int, cumulative: seq<real>, percent: real): (r: BucketIndex)
    ensures r.rangeType == Below <==> percent <= below as real
    ensures r.rangeType == Below ==> r.index == -1
    ensures r.rangeType == Inside ==>
      0 <= r.index < |cumulative| && percent <= cumulative[r.index] &&
      forall j :: 0 <= j < r.index ==> percent > cumulative[j]
    ensures r.rangeType == Above <==>
      percent > below as real && forall j :: 0 <= j < |cumulative| ==> percent > cumulative[j]
    ensures r.rangeType == Above ==> r.index == 0
  {
    if percent <= below as real then BucketIndex(Below, -1)
    else match FirstReaching(cumulative, percent)
      case Some(i) => BucketIndex(Inside, i)
      case None => BucketIndex(Above, 0)
  }

  /**
   * The classification with the below-range count first turned into a share of all packets in
   * percent, the unit of `percent` and of the cumulative list.
   */
  function LocateCorrected(below: int, total: int, cumulative: seq<real>, percent: real)
    : (r: BucketIndex)
    requires total != 0
  {
    if percent <= Percent(below, total) then BucketIndex(Below, -1)
    else match FirstReaching(cumulative, percent)
      case Some(i) => BucketIndex(Inside, i)
      case None => BucketIndex(Above, 0)
  }

  /**
   * The corrected classification finds the first share reaching the percentile in the list
   * "below the range, then bucket 0, 1, ...": position 0 is BELOW, position k + 1 is bucket k,
   * and no position is ABOVE.
   */
  lemma LocateCorrectedIsFirstShare(below: int, total: int, cumulative: seq<real>, percent: real)
    requires total != 0
    ensures var pos := FirstReaching([Percent(below, total)] + cumulative, percent);
      var r := LocateCorrected(below, total, cumulative, percent);
      (r.rangeType == Below <==> pos == Some(0)) &&
      (r.rangeType == Inside <==> pos.Some? && pos.value > 0) &&
      (r.rangeType == Inside ==> r.index == pos.value - 1) &&
      (r.rangeType == Above <==> pos.None?)
  {
    assert ([Percent(below, total)] + cumulative)[1..] == cumulative;
  }

  /**
   * 100 packets below the range out of 200 is a 50 % share, yet the 75th percentile is
   * classified BELOW because 75 <= 100; the corrected classification puts it in bucket 0.
   */
  lemma BelowComparesPacketCount()
    ensures CumulativeSpec(100, [100], 200) == [100.0]
    ensures Locate(100, CumulativeSpec(100, [100], 200), 75.0).rangeType == Below
    ensures Percent(100, 200) == 50.0
    ensures LocateCorrected(100, 200, CumulativeSpec(100, [100], 200), 75.0) == BucketIndex(Inside, 0)
  {
    assert [100][..1] == [100];
    assert Sum([100]) == 100 by {
      assert [100][..0] == [];
    }
  }

  /** `get_bucket_index`: an early-returning scan over the cumulative percentages. */
  method GetBucketIndex(below: int, cumulative: seq<real>, percent: real) returns (r: BucketIndex)
    ensures r == Locate(below, cumulative, percent)
  {
    if percent <= below as real {
      return BucketIndex(Below, -1);
    }
    for idx := 0 to |cumulative|
      invariant forall j :: 0 <= j < idx ==> percent > cumulative[j]
    {
      if percent <= cumulative[idx] {
        return BucketIndex(Inside, idx);
      }
    }
    return BucketIndex(Above, 0);
  }

  /** A plotted point: the interval's start in whole seconds and the latency in ms, if any. */
  datatype LatencyPoint = LatencyPoint(seconds: int, latencyMs: Option<real>)
  datatype QedEntry = QedEntry(percentile: real, latencies: seq<LatencyPoint>)

  predicate HasCumulative(h: Histogram)
  {
    h.cumulative.Some? && |h.cumulative.value| > 0
  }

  /** The latency of bucket `index`: its lower edge, converted from ns to ms. */
  function BucketLatency(h: Histogram, index: int): real
    requires HasCumulative(h)
  {
    var width := (h.rangeMax - h.rangeMin) as real / |h.cumulative.value| as real;
    (h.rangeMin as real + index as real * width) / 1000000.0
  }

  /** The point one histogram contributes for one percentile. */
  function Point(h: Histogram, percent: real): LatencyPoint
    requires HasCumulative(h)
  {
    var index := Locate(h.below, h.cumulative.value, percent);
    LatencyPoint(h.timestamp / 1000000000,
                 if index.rangeType == Inside then Some(BucketLatency(h, index.index)) else None)
  }

  /** The histograms that contribute a point: those with a non-empty cumulative list. */
  function Tracked(hs: seq<Histogram>): (r: seq<Histogram>)
    ensures forall i :: 0 <= i < |r| ==> HasCumulative(r[i])
    ensures |r| <= |hs|
  {
    if hs == [] then []
    else Tracked(hs[..|hs| - 1]) + (if HasCumulative(hs[|hs| - 1]) then [hs[|hs| - 1]] else [])
  }

  /** A histogram is kept exactly when it is in the input and has a non-empty cumulative list. */
  lemma {:induction false} TrackedMembers(hs: seq<Histogram>, h: Histogram)
    ensures h in Tracked(hs) <==> h in hs && HasCumulative(h)
    decreases |hs|
  {
    if hs != [] {
      var init := hs[..|hs| - 1];
      TrackedMembers(init, h);
      assert hs == init + [hs[|hs| - 1]];
    }
  }

  /**
   * The filter keeps the input's order: filtering a concatenation concatenates the filtered
   * parts, so a kept histogram stays before every kept histogram that followed it.
   */
  lemma {:induction false} TrackedAppend(a: seq<Histogram>, b: seq<Histogram>)
    ensures Tracked(a + b) == Tracked(a) + Tracked(b)
    decreases |b|
  {
    if b == [] {
      assert a + b == a;
    } else {
      var init := b[..|b| - 1];
      TrackedAppend(a, init);
      assert (a + b)[..|a + b| - 1] == a + init;
    }
  }

  /** The latencies one percentile gets, histogram by histogram. */
  function LatencySeries(hs: seq<Histogram>, percent: real): seq<LatencyPoint>
  {
    if hs == [] then []
    else LatencySeries(hs[..|hs| - 1], percent)
         + (if HasCumulative(hs[|hs| - 1]) then [Point(hs[|hs| - 1], percent)] else [])
  }

  /** The inner loop of `calculate_qed`: the points of one percentile. */
  method Latencies(histograms: seq<Histogram>, percent: real) returns (latencies: seq<LatencyPoint>)
    ensures latencies == LatencySeries(histograms, percent)
  {
    latencies := [];
    for j := 0 to |histograms|
      invariant latencies == LatencySeries(histograms[..j], percent)
    {
      assert histograms[..j + 1][..j] == histograms[..j];
      var h := histograms[j];
      assert histograms[..j + 1][j] == h;
      if h.cumulative.Some? && |h.cumulative.value| > 0 {
        var cumulative := h.cumulative.value;
        var index := GetBucketIndex(h.below, cumulative, percent);
        var latency := None;
        if index.rangeType == Inside {
          latency := Some(BucketLatency(h, index.index));
        }
        assert index == Locate(h.below, h.cumulative.value, percent);
        latencies := latencies + [LatencyPoint(h.timestamp / 1000000000, latency)];
      }
    }
    assert histograms[..|histograms|] == histograms;
  }

  /**
   * `calculate_qed`: adds the cumulative percentages to every histogram (in place in the
   * caller's list, returned here as `updated`), then one entry per percentile, in order.
   */
  method CalculateQed(histograms: seq<Histogram>, percentiles: seq<real>)
    returns (qed: seq<QedEntry>, updated: seq<Histogram>)
    ensures |updated| == |histograms|
    ensures forall i :: 0 <= i < |histograms| ==> updated[i] == WithCumulative(histograms[i])
    ensures |qed| == |percentiles|
    ensures forall k :: 0 <= k < |percentiles| ==>
      qed[k] == QedEntry(percentiles[k], LatencySeries(updated, percentiles[k]))
  {
    updated := [];
    for i := 0 to |histograms|
      invariant |updated| == i
      invariant forall j :: 0 <= j < i ==> updated[j] == WithCumulative(histograms[j])
    {
      var h := MakeCumulative(histograms[i]);
      updated := updated + [h];
    }
    qed := [];
    for k := 0 to |percentiles|
      invariant |qed| == k
      invariant forall k' :: 0 <= k' < k ==>
        qed[k'] == QedEntry(percentiles[k'], LatencySeries(updated, percentiles[k']))
    {
      var percent := percentiles[k];
      var latencies := Latencies(updated, percent);
      qed := qed + [QedEntry(percent, latencies)];
    }
  }

  /** Each percentile's series has one point per tracked histogram, in histogram order. */
  lemma {:induction false} LatencySeriesTracked(hs: seq<Histogram>, percent: real)
    ensures |LatencySeries(hs, percent)| == |Tracked(hs)|
    ensures forall i :: 0 <= i < |Tracked(hs)| ==>
      LatencySeries(hs, percent)[i] == Point(Tracked(hs)[i], percent)
  {
    if hs != [] {
      LatencySeriesTracked(hs[..|hs| - 1], percent);
    }
  }

  /**
   * A fresh histogram is tracked after `make_cumulative` exactly when its interval had packets
   * and at least one bucket.
   */
  lemma TrackedAfterMakeCumulative(h: Histogram)
    requires h.cumulative.None?
    ensures HasCumulative(WithCumulative(h)) <==> h.packetCount != 0 && |h.buckets| > 0
  {
  }

  /**
   * An INSIDE latency is the lower edge of its bucket, so it lies in the latency range (in ms),
   * below its upper end.
   */
  lemma InsideLatencyInRange(h: Histogram, percent: real)
    requires HasCumulative(h) && h.rangeMin < h.rangeMax
    requires Locate(h.below, h.cumulative.value, percent).rangeType == Inside
    ensures Point(h, percent).latencyMs.Some?
    ensures h.rangeMin as real / 1000000.0 <= Point(h, percent).latencyMs.value
    ensures Point(h, percent).latencyMs.value < h.rangeMax as real / 1000000.0
  {
    BucketLatencyInRange(h, Locate(h.below, h.cumulative.value, percent).index);
  }

  /** The lower edge of a bucket of a non-empty range lies in the range, below its upper end. */
  lemma BucketLatencyInRange(h: Histogram, index: int)
    requires HasCumulative(h) && h.rangeMin < h.rangeMax && 0 <= index < |h.cumulative.value|
    ensures h.rangeMin as real / 1000000.0 <= BucketLatency(h, index) < h.rangeMax as real / 1000000.0
  {
    var n := |h.cumulative.value| as real;
    var span := (h.rangeMax - h.rangeMin) as real;
    var width := span / n;
    assert width * n == span;
    if width <= 0.0 {
      MulLe(width, 0.0, n);
      assert false;
    }
    MulLe(0.0, index as real, width);
    MulLt(index as real, n, width);
    assert index as real * width < span;
  }

  /** BELOW and ABOVE plot no latency. */
  lemma OutsideHasNoLatency(h: Histogram, percent: real)
    requires HasCumulative(h)
    ensures Point(h, percent).latencyMs.None?
        <==> Locate(h.below, h.cumulative.value, percent).rangeType != Inside
  {
  }
}
