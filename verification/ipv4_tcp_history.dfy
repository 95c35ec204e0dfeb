/**
 * wireless_endpoint/ipv4_tcp_history.py: an HTTP test on a wireless endpoint whose TCP
 * result history is turned into one sample per interval.
 */
module Ipv4TcpHistory {
  import opened PyMath

  /** The sampling interval `run` uses, in nanoseconds. */
  const SAMPLE_DURATION := 100000000

  /** `int(math.ceil(2 * (duration / sample_duration)))`: enough samples for twice the test. */
  function SampleCount(durationNs: int): (n: int)
    ensures n as real * SAMPLE_DURATION as real >= 2.0 * durationNs as real
    ensures (n - 1) as real * SAMPLE_DURATION as real < 2.0 * durationNs as real
  {
    var x := 2.0 * (durationNs as real / SAMPLE_DURATION as real);
    var c := Ceil(x);
    MulLe(x, c as real, SAMPLE_DURATION as real);
    MulLt((c - 1) as real, x, SAMPLE_DURATION as real);
    c
  }

  /** One interval of the TCP result history. */
  datatype TcpInterval = TcpInterval(
    timestamp: int, txBytes: int, rxBytes: int, rttMin: int, rttMax: int, rttCurrent: int, cwndCurrent: int)

  /** The seven-key sample `collect_results` stores. */
  datatype TcpSample = TcpSample(
    timestamp: int, tcpTxBytes: int, tcpRxBytes: int, roundTripTimeMin: int,
    roundTripTimeMax: int, roundTripTimeCurrent: int, congestionWindowCurrent: int)

  /** `collect_results`: one sample per interval, in interval order, with each value in its own key. */
  method CollectResults(intervals: seq<TcpInterval>) returns (samples: seq<TcpSample>)
    ensures |samples| == |intervals|
    ensures forall i :: 0 <= i < |intervals| ==>
      var t, s := intervals[i], samples[i];
      s.timestamp == t.timestamp && s.tcpTxBytes == t.txBytes && s.tcpRxBytes == t.rxBytes &&
      s.roundTripTimeMin == t.rttMin && s.roundTripTimeMax == t.rttMax &&
      s.roundTripTimeCurrent == t.rttCurrent && s.congestionWindowCurrent == t.cwndCurrent
  {
    samples := [];
    for i := 0 to |intervals|
      invariant |samples| == i
      invariant forall j :: 0 <= j < i ==>
        var t, s := intervals[j], samples[j];
        s.timestamp == t.timestamp && s.tcpTxBytes == t.txBytes && s.tcpRxBytes == t.rxBytes &&
        s.roundTripTimeMin == t.rttMin && s.roundTripTimeMax == t.rttMax &&
        s.roundTripTimeCurrent == t.rttCurrent && s.congestionWindowCurrent == t.cwndCurrent
    {
      var t := intervals[i];
      samples := samples + [TcpSample(t.timestamp, t.txBytes, t.rxBytes, t.rttMin, t.rttMax,
                                      t.rttCurrent, t.cwndCurrent)];
    }
  }
}
