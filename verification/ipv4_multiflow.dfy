/**
 * back2back/ipv4_multiflow.py: several UDP flows between two ports, downstream (port 1 to
 * port 2) first, then upstream; every flow gets the next UDP source and destination port.
 */
module Ipv4Multiflow {
  import opened Wrappers
  import opened PyMath
  import opened Text
  import Ethernet
  import Bpf

  /** The two ports of the example, by role. */
  datatype PortRef = Port1 | Port2

  /** What `create_flow` sets up: its ports, UDP ports, trigger filter and payload length. */
  datatype FlowRecord = FlowRecord(
    src: PortRef, dst: PortRef, udpSrc: int, udpDst: int, filter: string, payloadLength: nat)

  /** The frame size `create_flow` uses for every flow. */
  const FRAME_SIZE := 512

  /** `"ip dst {} and udp port {}"`. */
  function FlowFilter(dstIp: string, port: int): string
  {
    "ip dst " + dstIp + " and udp port " + IntText(port)
  }

  /** The flow filter is the conjunction of a destination-address and a UDP-port clause. */
  lemma FlowFilterIsConjunction(dstIp: string, port: int)
    ensures FlowFilter(dstIp, port) == Bpf.Conjunction([Bpf.IpDst(dstIp), Bpf.UdpPort(port)])
  {
    Bpf.Conjunction2(Bpf.IpDst(dstIp), Bpf.UdpPort(port));
  }

  /** The k-th flow (0-based) of a run whose counters started at `src0` and `dst0`. */
  function ExpectedFlow(k: int, downstream: nat, src0: int, dst0: int, ip1: string, ip2: string)
    : FlowRecord
  {
    if k < downstream then
      FlowRecord(Port1, Port2, src0 + k, dst0 + k, FlowFilter(ip2, dst0 + k), Ethernet.PayloadLength(FRAME_SIZE, Ethernet.UDP_OVERHEAD))
    else
      FlowRecord(Port2, Port1, src0 + k, dst0 + k, FlowFilter(ip1, dst0 + k), Ethernet.PayloadLength(FRAME_SIZE, Ethernet.UDP_OVERHEAD))
  }

  /** The source ports of `flows`: the set `run` collects as the transmitting ports. */
  function Sources(flows: seq<FlowRecord>): set<PortRef>
  {
    if flows == [] then {} else Sources(flows[..|flows| - 1]) + {flows[|flows| - 1].src}
  }

  /** Appending a flow adds its source port. */
  lemma SourcesAppend(flows: seq<FlowRecord>, flow: FlowRecord)
    ensures Sources(flows + [flow]) == Sources(flows) + {flow.src}
  {
    assert (flows + [flow])[..|flows|] == flows;
  }

  /** A port is among the sources exactly when some flow starts there. */
  lemma {:induction false} SourcesMembers(flows: seq<FlowRecord>, p: PortRef)
    ensures p in Sources(flows) <==> exists k :: 0 <= k < |flows| && flows[k].src == p
  {
    if flows != [] {
      var init := flows[..|flows| - 1];
      SourcesMembers(init, p);
      if p in Sources(init) {
        var k :| 0 <= k < |init| && init[k].src == p;
        assert flows[k].src == p;
      }
      if exists k :: 0 <= k < |flows| && flows[k].src == p {
        var k :| 0 <= k < |flows| && flows[k].src == p;
        if k < |init| {
          assert init[k].src == p;
        }
      }
    }
  }

  /** The example's own state: the UDP port counters and the two port handles. */
  class Example {
    var udpSrc: int
    var udpDst: int
    var port1: Option<int>
    var port2: Option<int>

    constructor ()
      ensures udpSrc == 4096 && udpDst == 4096 && port1.None? && port2.None?
    {
      udpSrc := 4096;
      udpDst := 4096;
      port1 := None;
      port2 := None;
    }

    /**
     * `create_flow`: the flow uses the current counters (the filter the pre-increment
     * destination port), then both counters advance by one.
     */
    method CreateFlow(src: PortRef, dst: PortRef, dstIp: string) returns (flow: FlowRecord)
      modifies this
      ensures flow == FlowRecord(src, dst, old(udpSrc), old(udpDst), FlowFilter(dstIp, old(udpDst)),
                                 Ethernet.PayloadLength(FRAME_SIZE, Ethernet.UDP_OVERHEAD))
      ensures udpSrc == old(udpSrc) + 1 && udpDst == old(udpDst) + 1
      ensures port1 == old(port1) && port2 == old(port2)
    {
      var payload := Ethernet.PayloadLength(FRAME_SIZE, Ethernet.UDP_OVERHEAD);
      var filter := "ip dst " + dstIp + " and udp port " + IntText(udpDst);
      flow := FlowRecord(src, dst, udpSrc, udpDst, filter, payload);
      udpSrc := udpSrc + 1;
      udpDst := udpDst + 1;
    }

    /**
     * The flow-creation loops of `run`: `downstream` flows from port 1 to port 2, then
     * `upstream` flows back, with the transmitting ports collected in a set and four results
     * registered for refreshing per flow.
     */
    method CreateFlows(downstream: nat, upstream: nat, ip1: string, ip2: string)
      returns (flows: seq<FlowRecord>, transmitting: set<PortRef>, refreshCount: nat)
      modifies this
      ensures |flows| == downstream + upstream
      ensures forall k :: 0 <= k < |flows| ==>
        flows[k] == ExpectedFlow(k, downstream, old(udpSrc), old(udpDst), ip1, ip2)
      ensures transmitting == Sources(flows)
      ensures refreshCount == 4 * |flows|
      ensures udpSrc == old(udpSrc) + |flows| && udpDst == old(udpDst) + |flows|
      ensures port1 == old(port1) && port2 == old(port2)
    {
      flows := [];
      transmitting := {};
      refreshCount := 0;
      var src0, dst0 := udpSrc, udpDst;
      for i := 0 to downstream
        invariant |flows| == i && udpSrc == src0 + i && udpDst == dst0 + i
        invariant forall k :: 0 <= k < i ==> flows[k] == ExpectedFlow(k, downstream, src0, dst0, ip1, ip2)
        invariant transmitting == Sources(flows)
        invariant refreshCount == 4 * i
        invariant port1 == old(port1) && port2 == old(port2)
      {
        var flow := CreateFlow(Port1, Port2, ip2);
        SourcesAppend(flows, flow);
        flows := flows + [flow];
        transmitting := transmitting + {Port1};
        refreshCount := refreshCount + 4;
      }
      for i := 0 to upstream
        invariant |flows| == downstream + i
        invariant udpSrc == src0 + |flows| && udpDst == dst0 + |flows|
        invariant forall k :: 0 <= k < |flows| ==> flows[k] == ExpectedFlow(k, downstream, src0, dst0, ip1, ip2)
        invariant transmitting == Sources(flows)
        invariant refreshCount == 4 * |flows|
        invariant port1 == old(port1) && port2 == old(port2)
      {
        var flow := CreateFlow(Port2, Port1, ip1);
        SourcesAppend(flows, flow);
        flows := flows + [flow];
        transmitting := transmitting + {Port2};
        refreshCount := refreshCount + 4;
      }
    }

    /** `cleanup`: port 1 is destroyed and forgotten; port 2 is destroyed but stays set. */
    method Cleanup() returns (destroyed: seq<int>)
      modifies this
      ensures port1.None? && port2 == old(port2)
      ensures destroyed == (if old(port1).Some? then [old(port1).value] else [])
                         + (if old(port2).Some? then [old(port2).value] else [])
      ensures udpSrc == old(udpSrc) && udpDst == old(udpDst)
    {
      destroyed := [];
      if port1.Some? {
        destroyed := destroyed + [port1.value];
        port1 := None;
      }
      if port2.Some? {
        destroyed := destroyed + [port2.value];
      }
    }
  }

  /**
   * Flow k of a fresh example uses UDP port 4096 + k at both ends, so all flows of one run
   * have distinct ports, and every downstream flow precedes every upstream flow.
   */
  lemma FlowPorts(downstream: nat, ip1: string, ip2: string, j: int, k: int)
    requires 0 <= j < k
    ensures ExpectedFlow(k, downstream, 4096, 4096, ip1, ip2).udpSrc == 4096 + k
    ensures ExpectedFlow(k, downstream, 4096, 4096, ip1, ip2).udpDst == 4096 + k
    ensures ExpectedFlow(j, downstream, 4096, 4096, ip1, ip2).udpDst
         != ExpectedFlow(k, downstream, 4096, 4096, ip1, ip2).udpDst
    ensures ExpectedFlow(j, downstream, 4096, 4096, ip1, ip2).src == Port2 ==>
      ExpectedFlow(k, downstream, 4096, 4096, ip1, ip2).src == Port2
  {
  }

  /** The source port set holds port 1 iff there are downstream flows, port 2 iff upstream. */
  lemma TransmittingPorts(downstream: nat, upstream: nat, flows: seq<FlowRecord>)
    requires |flows| == downstream + upstream
    requires forall k :: 0 <= k < |flows| ==> flows[k].src == (if k < downstream then Port1 else Port2)
    ensures Sources(flows)
         == (if downstream > 0 then {Port1} else {}) + (if upstream > 0 then {Port2} else {})
  {
    var expected := (if downstream > 0 then {Port1} else {}) + (if upstream > 0 then {Port2} else {});
    forall p: PortRef
      ensures p in Sources(flows) <==> p in expected
    {
      SourcesMembers(flows, p);
      if p == Port1 && downstream > 0 {
        assert flows[0].src == Port1;
      }
      if p == Port2 && upstream > 0 {
        assert flows[downstream].src == Port2;
      }
    }
  }

  /**
   * The refresh loop of `run` makes `int(duration_ns / 1e9 + 1) + 1` iterations: the whole
   * seconds of traffic plus two.
   */
  function PollIterations(gapNs: int, frames: int): (n: nat)
    ensures gapNs >= 0 && frames >= 0 ==>
      (n - 2) as real <= (gapNs * frames) as real / 1000000000.0 < (n - 1) as real
  {
    RangeLength(0, Trunc((gapNs * frames) as real / 1000000000.0 + 1.0) + 1)
  }
}
