/**
 * back2back/ipv4.py: one UDP stream from port 1 to port 2. The inter-frame gap comes from the
 * configuration or from a throughput; progress is polled once per whole second of traffic.
 */
module Ipv4FrameBlasting {
  import opened PyMath
  import opened Text
  import Bpf

  /** The UDP source and destination port of the stream. */
  const UDP_PORT := 4096

  /**
   * The number of iterations of `for iteration in range(1, int(duration_ns / 1e9 + 1))`: one
   * per whole second the stream transmits.
   */
  function ProgressPolls(gapNs: int, frames: int): (n: nat)
    ensures gapNs >= 0 && frames >= 0 ==>
      n as real <= (gapNs * frames) as real / 1000000000.0 < n as real + 1.0
  {
    RangeLength(1, Trunc((gapNs * frames) as real / 1000000000.0 + 1.0))
  }

  /** The trigger filter `"ip dst {} and udp port {}".format(dst_ip, 4096)`. */
  function TriggerFilter(dstIp: string): (r: string)
    ensures r == Bpf.Conjunction([Bpf.IpDst(dstIp), Bpf.UdpPort(UDP_PORT)])
  {
    Bpf.Conjunction2(Bpf.IpDst(dstIp), Bpf.UdpPort(UDP_PORT));
    "ip dst " + dstIp + " and udp port " + IntText(UDP_PORT)
  }
}
