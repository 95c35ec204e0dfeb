/**
 * wireless_endpoint/ipv4_tcp.py: an HTTP test on a wireless endpoint whose result history is
 * turned into transmit, receive and cumulative sample lists.
 */
module Ipv4Tcp {
  import opened Wrappers
  import opened Samples

  /** One interval of the HTTP result history. */
  datatype Interval = Interval(timestamp: int, txBytes: int, rxBytes: int)

  /** A cumulative snapshot: `(timestamp, mbit/s, uploaded, downloaded)`. */
  datatype Cumulative = Cumulative(timestamp: int, mbps: real, uploaded: int, downloaded: int)

  /** A `(timestamp, bytes, mbit/s)` sample. */
  datatype Sample = Sample(timestamp: int, bytes: int, mbps: real)

  /** The transmit (or receive) sample of one interval. */
  function SampleOf(sampleDurationNs: int, timestamp: int, bytes: int): (r: Sample)
    requires sampleDurationNs != 0
    ensures r.timestamp == timestamp && r.bytes == bytes
    ensures r.mbps * sampleDurationNs as real == 8000.0 * bytes as real
  {
    Sample(timestamp, bytes, BytesPerSampleToMbitS(sampleDurationNs, bytes).value)
  }

  /**
   * `collect_results`: one transmit and one receive sample per interval, in interval order,
   * and the latest cumulative snapshot only when the history holds a cumulative entry. A zero sampling duration
   * divides by zero at the first interval.
   */
  method CollectResults(sampleDurationNs: int, intervals: seq<Interval>, cumulativeLength: int, latest: Cumulative)
    returns (r: Result<(seq<Sample>, seq<Sample>, seq<Cumulative>)>)
    ensures r.Err? <==> sampleDurationNs == 0 && intervals != []
    ensures r.Err? ==> r.error == ZeroDivisionError
    ensures r.Ok? ==> |r.value.0| == |intervals| && |r.value.1| == |intervals|
    ensures r.Ok? ==> forall i :: 0 <= i < |intervals| ==>
      r.value.0[i] == SampleOf(sampleDurationNs, intervals[i].timestamp, intervals[i].txBytes) &&
      r.value.1[i] == SampleOf(sampleDurationNs, intervals[i].timestamp, intervals[i].rxBytes)
    ensures r.Ok? ==> r.value.2 == (if cumulativeLength > 0 then [latest] else [])
  {
    if sampleDurationNs == 0 && intervals != [] {
      return Err(ZeroDivisionError);
    }
    var tx: seq<Sample> := [];
    for i := 0 to |intervals|
      invariant |tx| == i
      invariant forall j :: 0 <= j < i ==>
        tx[j] == SampleOf(sampleDurationNs, intervals[j].timestamp, intervals[j].txBytes)
    {
      tx := tx + [SampleOf(sampleDurationNs, intervals[i].timestamp, intervals[i].txBytes)];
    }
    var rx: seq<Sample> := [];
    for i := 0 to |intervals|
      invariant |rx| == i
      invariant forall j :: 0 <= j < i ==>
        rx[j] == SampleOf(sampleDurationNs, intervals[j].timestamp, intervals[j].rxBytes)
    {
      rx := rx + [SampleOf(sampleDurationNs, intervals[i].timestamp, intervals[i].rxBytes)];
    }
    var cumulative: seq<Cumulative> := [];
    if cumulativeLength > 0 {
      cumulative := cumulative + [latest];
    }
    r := Ok((tx, rx, cumulative));
  }
}
