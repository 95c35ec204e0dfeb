/**
 * back2back/ipv4_example.py: a UDP flow between two ByteBlower ports, optionally in both
 * directions, reporting the frame loss of each flow.
 */
module Ipv4Example {
  import opened Wrappers
  import opened Scapy
  import ExampleGeneric
  import ThroughputRssiUdp

  /** A port's maximum datagram length after the check: raised to `ethernetLength` only when that is larger. */
  function RaisedMdl(ethernetLength: int, mdl: int): (r: int)
    ensures r >= ethernetLength && r >= mdl
    ensures r == mdl || r == ethernetLength
    ensures ethernetLength <= mdl ==> r == mdl
  {
    if ethernetLength > mdl then ethernetLength else mdl
  }

  /** `(interFrameGap * numberOfFrames * 1.0) / 1000000000`: the seconds the streams need. */
  function TransmitSeconds(interFrameGapNs: int, numberOfFrames: int): (r: real)
    ensures r * 1000000000.0 == (interFrameGapNs * numberOfFrames) as real
  {
    (interFrameGapNs * numberOfFrames) as real * 1.0 / 1000000000.0
  }

  /**
   * The flows `run` creates: source to destination, and with `bidir` also destination to
   * source with the UDP ports swapped. `dstMacFromSrc` / `srcMacFromDst` are what each port
   * resolves for the other's address.
   */
  function Flows(src: ExampleGeneric.PortInfo, dst: ExampleGeneric.PortInfo, dstMacFromSrc: string, srcMacFromDst: string,
                 ethernetLength: int, srcUdpPort: int, dstUdpPort: int, numberOfFrames: int, interFrameGapNs: int,
                 bidir: bool): (r: seq<(ExampleGeneric.Stream, ExampleGeneric.Trigger)>)
    ensures |r| == if bidir then 2 else 1
    ensures r[0] == ExampleGeneric.CreateFlow(src, dst, dstMacFromSrc, ethernetLength, srcUdpPort, dstUdpPort,
                                              numberOfFrames, interFrameGapNs)
  {
    var forward := ExampleGeneric.CreateFlow(src, dst, dstMacFromSrc, ethernetLength, srcUdpPort, dstUdpPort,
                                             numberOfFrames, interFrameGapNs);
    if bidir then
      [forward, ExampleGeneric.CreateFlow(dst, src, srcMacFromDst, ethernetLength, dstUdpPort, srcUdpPort,
                                          numberOfFrames, interFrameGapNs)]
    else [forward]
  }

  /**
   * The reverse flow mirrors the forward one: its stream is on the destination port and its
   * trigger on the source port, and its frame carries the addresses and UDP ports swapped.
   */
  lemma ReverseFlowSwaps(src: ExampleGeneric.PortInfo, dst: ExampleGeneric.PortInfo, dstMacFromSrc: string,
                         srcMacFromDst: string, ethernetLength: int, srcUdpPort: int, dstUdpPort: int,
                         numberOfFrames: int, interFrameGapNs: int)
    ensures var flows := Flows(src, dst, dstMacFromSrc, srcMacFromDst, ethernetLength, srcUdpPort, dstUdpPort,
                               numberOfFrames, interFrameGapNs, true);
      var forward := flows[0].0.frame;
      var reverse := flows[1].0.frame;
      flows[1].0.port == flows[0].1.port == dst.handle && flows[1].1.port == flows[0].0.port == src.handle &&
      forward[1] == IPv4(src.ip, dst.ip) && reverse[1] == IPv4(dst.ip, src.ip) &&
      forward[2] == Udp(srcUdpPort, dstUdpPort) && reverse[2] == Udp(dstUdpPort, srcUdpPort)
  {
  }

  /** `loss`: the percentage of transmitted frames the trigger missed, 0.0 when nothing was sent. */
  function Loss(txPackets: int, rxPackets: int): (r: real)
    ensures txPackets == 0 ==> r == 0.0
    ensures txPackets != 0 ==> r * txPackets as real == (txPackets - rxPackets) as real * 100.0
    ensures 0 <= rxPackets <= txPackets ==> 0.0 <= r <= 100.0
  {
    if txPackets != 0 then ThroughputRssiUdp.LossPercent(txPackets, rxPackets) else 0.0
  }

  /**
   * The end of `run` as written: the loss list is built, but "Frame loss2" is printed whatever
   * `bidir` is, and `loss2` is bound only when it is set, so a one-way run raises
   * UnboundLocalError (a NameError).
   */
  function Results(tx: int, rx: int, tx2: int, rx2: int, bidir: bool): (r: Result<seq<real>>)
    ensures r.Err? <==> !bidir
    ensures r.Err? ==> r.error == NameError
    ensures r.Ok? ==> r.value == [Loss(tx, rx), Loss(tx2, rx2)]
  {
    if bidir then Ok([Loss(tx, rx), Loss(tx2, rx2)]) else Err(NameError)
  }

  /** The end of `run` as evidently intended: one loss per flow, in flow order. */
  function ResultsCorrected(tx: int, rx: int, tx2: int, rx2: int, bidir: bool): (r: seq<real>)
    ensures |r| == if bidir then 2 else 1
    ensures r[0] == Loss(tx, rx) && (bidir ==> r[1] == Loss(tx2, rx2))
    ensures Results(tx, rx, tx2, rx2, bidir).Ok? ==> Results(tx, rx, tx2, rx2, bidir).value == r
  {
    if bidir then [Loss(tx, rx), Loss(tx2, rx2)] else [Loss(tx, rx)]
  }

  /** A one-way run never returns its loss as written, though every frame arrived. */
  lemma OneWayRunFails()
    ensures Results(100, 100, 0, 0, false) == Err(NameError)
    ensures ResultsCorrected(100, 100, 0, 0, false) == [0.0]
  {
  }
}
