/**
 * demo_scripts/rssi_vs_udp_loss.py: a ByteBlower port streams UDP frames at a fixed gap to a
 * wireless endpoint. The interface search, device selection, payload and trigger filter are
 * shared with the other wireless demo scripts (modules Wifi and ThroughputRssiUdp); this module
 * holds the transmit window.
 */
module RssiVsUdpLoss {
  /** One second in nanoseconds: the slack added after the last frame. */
  const SECOND_NS := 1000000000

  /** `duration_ns`: how long the port transmits, the gap times the frame count plus one second. */
  function TransmitDurationNs(interframeGapNs: int, numberOfFrames: int): (r: int)
    ensures r - SECOND_NS == interframeGapNs * numberOfFrames
  {
    interframeGapNs * numberOfFrames + SECOND_NS
  }

  /**
   * With a non-negative gap the window lasts at least one second, and every frame k, sent at
   * k times the gap, is sent a full second plus one gap before the window closes.
   */
  lemma {:induction false} WindowCoversEveryFrame(interframeGapNs: nat, numberOfFrames: nat, k: nat)
    requires k < numberOfFrames
    ensures TransmitDurationNs(interframeGapNs, numberOfFrames) >= SECOND_NS
    ensures k * interframeGapNs + interframeGapNs + SECOND_NS <= TransmitDurationNs(interframeGapNs, numberOfFrames)
  {
    calc {
      k * interframeGapNs + interframeGapNs;
      (k + 1) * interframeGapNs;
    <= { MulMonotone(k + 1, numberOfFrames, interframeGapNs); }
      numberOfFrames * interframeGapNs;
    }
  }

  lemma MulMonotone(a: nat, b: nat, c: nat)
    requires a <= b
    ensures a * c <= b * c
  {
  }

}
