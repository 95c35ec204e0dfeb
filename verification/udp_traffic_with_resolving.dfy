/**
 * back2back/use_cases/udp_traffic_with_resolving.py: UDP flows between a WAN device and a CPE
 * device that may sit in VLAN stacks or behind NAT, downstream flows first, then upstream ones.
 */
module UdpTrafficWithResolving {
  import opened Wrappers
  import opened PyMath
  import opened Text
  import Hex
  import MacText
  import Ethernet
  import Bpf

  /** The MAC a device gets when none is configured: `'00:bb:bb:%02x:%02x:%02x'`. */
  function RandomMac(a: Hex.Byte, b: Hex.Byte, c: Hex.Byte): string
  {
    MacText.Mac([0x00, 0xbb, 0xbb, a, b, c])
  }

  /** The generated MAC is a well-formed address in the 00:bb:bb block carrying the three bytes. */
  lemma RandomMacShape(a: Hex.Byte, b: Hex.Byte, c: Hex.Byte)
    ensures MacText.WellFormed(RandomMac(a, b, c)) && |RandomMac(a, b, c)| == 17
    ensures MacText.Octets(RandomMac(a, b, c)) == [0x00, 0xbb, 0xbb, a, b, c]
  {
    MacText.MacRoundTrip([0x00, 0xbb, 0xbb, a, b, c]);
  }

  /** The VLAN stack of a device: the 'vlans' list, then a truthy single 'vlan'. */
  function DeviceVlans(vlan: Option<int>, vlans: seq<int>): (r: seq<int>)
    ensures vlan.Some? && vlan.value != 0 ==> r == vlans + [vlan.value]
    ensures vlan.None? || vlan.value == 0 ==> r == vlans
  {
    if vlan.Some? && vlan.value != 0 then vlans + [vlan.value] else vlans
  }

  /** A port on the ByteBlower server, as a device sees it. */
  datatype Addressing = Addressing(ip: string, netmask: string, gateway: string)

  /** `Device`: a port's configuration and, once created, its handle on the server. */
  class Device {
    var iface: string
    var mac: string
    var vlans: seq<int>
    var ip: string
    var netmask: string
    var gateway: string
    var dhcp: bool
    var behindNat: bool
    var bbPort: Option<int>

    constructor (iface: string, mac: Option<string>, random: (Hex.Byte, Hex.Byte, Hex.Byte),
                 vlan: Option<int>, vlans: seq<int>, fixed: Addressing, dhcp: bool, behindNat: bool)
      ensures this.iface == iface && this.mac == mac.GetOr(RandomMac(random.0, random.1, random.2))
      ensures this.vlans == DeviceVlans(vlan, vlans)
      ensures this.ip == fixed.ip && this.netmask == fixed.netmask && this.gateway == fixed.gateway
      ensures this.dhcp == dhcp && this.behindNat == behindNat && this.bbPort.None?
    {
      this.iface := iface;
      this.mac := mac.GetOr(RandomMac(random.0, random.1, random.2));
      var stack := vlans;
      if vlan.Some? && vlan.value != 0 {
        stack := stack + [vlan.value];
      }
      this.vlans := stack;
      this.ip := fixed.ip;
      this.netmask := fixed.netmask;
      this.gateway := fixed.gateway;
      this.dhcp := dhcp;
      this.behindNat := behindNat;
      this.bbPort := None;
    }

    /**
     * `create_on_server`: the device records its new port; with DHCP it takes over the leased
     * address, netmask and gateway, otherwise its static ones stay.
     */
    method CreateOnServer(port: int, leased: Addressing)
      modifies this
      ensures bbPort == Some(port)
      ensures dhcp ==> ip == leased.ip && netmask == leased.netmask && gateway == leased.gateway
      ensures !dhcp ==> ip == old(ip) && netmask == old(netmask) && gateway == old(gateway)
      ensures iface == old(iface) && mac == old(mac) && vlans == old(vlans)
      ensures dhcp == old(dhcp) && behindNat == old(behindNat)
    {
      bbPort := Some(port);
      if dhcp {
        ip := leased.ip;
        gateway := leased.gateway;
        netmask := leased.netmask;
      }
    }

    /** One step of `Example.cleanup`: destroy the port if there is one, then forget it. */
    method Release() returns (destroyed: Option<int>)
      modifies this
      ensures destroyed == old(bbPort) && bbPort.None?
      ensures iface == old(iface) && mac == old(mac) && vlans == old(vlans) && ip == old(ip)
      ensures netmask == old(netmask) && gateway == old(gateway)
      ensures dhcp == old(dhcp) && behindNat == old(behindNat)
    {
      destroyed := bbPort;
      bbPort := None;
    }
  }

  /**
   * The frame count of `create_between`: the given number, or the frames whose intervals cover
   * the duration, rounded up; a zero gap divides by zero.
   */
  function FrameCount(numberOfFrames: Option<int>, durationS: real, gapNs: int): (r: Result<int>)
    ensures numberOfFrames.Some? ==> r == Ok(numberOfFrames.value)
    ensures numberOfFrames.None? ==> (r.Err? <==> gapNs == 0)
    ensures r.Err? ==> r.error == ZeroDivisionError
    ensures numberOfFrames.None? && r.Ok? ==>
      var exact := durationS * 1000000000.0 / gapNs as real;
      exact <= r.value as real < exact + 1.0
  {
    if numberOfFrames.Some? then Ok(numberOfFrames.value)
    else if gapNs == 0 then Err(ZeroDivisionError)
    else Ok(Ceil(durationS * 1000000000.0 / gapNs as real))
  }

  /** `get_duration`: initial wait plus one gap per frame, in seconds. */
  function FlowDuration(initialWaitNs: int, frames: int, gapNs: int): real
  {
    (initialWaitNs + frames * gapNs) as real / 1000000000.0
  }

  /**
   * A flow sized from a duration lasts at least that duration and less than one gap longer.
   */
  lemma FramesCoverDuration(durationS: real, gapNs: int)
    requires gapNs > 0 && durationS >= 0.0
    ensures var frames := FrameCount(None, durationS, gapNs).value;
      durationS <= FlowDuration(0, frames, gapNs) < durationS + gapNs as real / 1000000000.0
  {
    var frames := FrameCount(None, durationS, gapNs).value;
    var g := gapNs as real;
    var exact := durationS * 1000000000.0 / g;
    assert exact * g == durationS * 1000000000.0;
    MulLe(exact, frames as real, g);
    MulLt(frames as real, exact + 1.0, g);
    assert (exact + 1.0) * g == durationS * 1000000000.0 + g;
    assert (0 + frames * gapNs) as real == frames as real * g;
    assert FlowDuration(0, frames, gapNs) == frames as real * g / 1000000000.0;
  }

  function VlanPrimitives(vlans: seq<int>): (r: seq<Bpf.Primitive>)
    ensures |r| == |vlans| && forall i :: 0 <= i < |vlans| ==> r[i] == Bpf.Vlan(vlans[i])
  {
    seq(|vlans|, i requires 0 <= i < |vlans| => Bpf.Vlan(vlans[i]))
  }

  /**
   * The trigger (and NAT capture) filter: one "vlan %d" per VLAN of the receiving device, in
   * order, then "ip dst %s" and "udp port %d", joined with " and ".
   */
  method ReceiveFilter(vlans: seq<int>, dstIp: string, port: int) returns (filter: string)
    ensures filter == Bpf.Conjunction(VlanPrimitives(vlans) + [Bpf.IpDst(dstIp), Bpf.UdpPort(port)])
  {
    var elements: seq<string> := [];
    for i := 0 to |vlans|
      invariant elements == Bpf.RenderAll(VlanPrimitives(vlans[..i]))
    {
      elements := elements + ["vlan " + IntText(vlans[i])];
    }
    assert vlans[..|vlans|] == vlans;
    elements := elements + ["ip dst " + dstIp];
    elements := elements + ["udp port " + IntText(port)];
    assert elements == Bpf.RenderAll(VlanPrimitives(vlans) + [Bpf.IpDst(dstIp), Bpf.UdpPort(port)]);
    filter := Join(elements, " and ");
  }

  /** The trigger filter accepts the VLANs outermost first, before the address and port. */
  lemma ReceiveFilterStartsWithVlans(vlans: seq<int>, dstIp: string, port: int)
    requires |vlans| > 0
    ensures Bpf.Conjunction(VlanPrimitives(vlans) + [Bpf.IpDst(dstIp), Bpf.UdpPort(port)])
         == "vlan " + IntText(vlans[0]) + " and "
            + Bpf.Conjunction(VlanPrimitives(vlans[1..]) + [Bpf.IpDst(dstIp), Bpf.UdpPort(port)])
  {
    var rest := VlanPrimitives(vlans[1..]) + [Bpf.IpDst(dstIp), Bpf.UdpPort(port)];
    assert VlanPrimitives(vlans) + [Bpf.IpDst(dstIp), Bpf.UdpPort(port)] == [Bpf.Vlan(vlans[0])] + rest;
    Bpf.ConjunctionPrepend(Bpf.Vlan(vlans[0]), rest);
  }

  /** `UdpTrafficProfile`: the frame interval and frame size of every flow it creates. */
  datatype Profile = Profile(gapNs: int, frameSize: int)

  /** What `create_between` configures: the stream, its frame's addressing, and the trigger. */
  datatype UdpFlow = UdpFlow(
    name: string, frames: int, gapNs: int, udpSrc: int,
    frameDstIp: string, frameDstPort: int, payloadLength: nat, txTags: seq<int>,
    filter: string)

  /**
   * `create_between`: flow k uses UDP port 4096 + k at both ends. Two NAT devices are refused
   * before any stream exists; a NAT destination is addressed at the endpoint the NAT resolver
   * found (`natEndpoint`), while the trigger still filters on the device's own address.
   */
  method CreateBetween(profile: Profile, name: string, flowNumber: int, source: Device,
                       destination: Device, numberOfFrames: Option<int>, durationS: real,
                       natEndpoint: (string, int))
    returns (r: Result<UdpFlow>)
    ensures FrameCount(numberOfFrames, durationS, profile.gapNs).Err? ==>
      r == Err(ZeroDivisionError)
    ensures FrameCount(numberOfFrames, durationS, profile.gapNs).Ok? && source.behindNat && destination.behindNat ==>
      r == Err(RuntimeError)
    ensures r.Ok? ==>
      var port := 4096 + flowNumber;
      !(source.behindNat && destination.behindNat) &&
      r.value.frames == FrameCount(numberOfFrames, durationS, profile.gapNs).value &&
      r.value.name == name && r.value.gapNs == profile.gapNs && r.value.udpSrc == port &&
      r.value.frameDstIp == (if destination.behindNat then natEndpoint.0 else destination.ip) &&
      r.value.frameDstPort == (if destination.behindNat then natEndpoint.1 else port) &&
      r.value.payloadLength == Ethernet.PayloadLength(profile.frameSize, Ethernet.UDP_OVERHEAD) &&
      r.value.txTags == source.vlans &&
      r.value.filter == Bpf.Conjunction(VlanPrimitives(destination.vlans)
                                        + [Bpf.IpDst(destination.ip), Bpf.UdpPort(port)])
    ensures r.Err? ==> r.error == ZeroDivisionError || r.error == RuntimeError
    ensures r.Ok? <==>
      FrameCount(numberOfFrames, durationS, profile.gapNs).Ok? && !(source.behindNat && destination.behindNat)
  {
    var frames := FrameCount(numberOfFrames, durationS, profile.gapNs);
    if frames.Err? {
      return Err(ZeroDivisionError);
    }
    var udpSrc := 4096 + flowNumber;
    var udpDest := 4096 + flowNumber;
    var frameDstIp := destination.ip;
    var frameDstPort := udpDest;
    if source.behindNat && destination.behindNat {
      return Err(RuntimeError);
    }
    if destination.behindNat {
      frameDstIp := natEndpoint.0;
      frameDstPort := natEndpoint.1;
    }
    var payload := Ethernet.PayloadLength(profile.frameSize, 42);
    var filter := ReceiveFilter(destination.vlans, destination.ip, udpDest);
    return Ok(UdpFlow(name, frames.value, profile.gapNs, udpSrc, frameDstIp, frameDstPort,
                      payload, source.vlans, filter));
  }

  /** The per-flow summary of `get_results`. */
  datatype FlowLoss = FlowLoss(framesLost: int, pctLost: real)

  /** `frames_lost = tx - rx` and `100 * lost / tx`, with no guard against tx == 0. */
  function Loss(txFrames: int, rxFrames: int): (r: Result<FlowLoss>)
    ensures r.Err? <==> txFrames == 0
    ensures r.Err? ==> r.error == ZeroDivisionError
    ensures r.Ok? ==> r.value.framesLost + rxFrames == txFrames
    ensures r.Ok? && 0 <= rxFrames <= txFrames ==> 0.0 <= r.value.pctLost <= 100.0
    ensures r.Ok? && rxFrames == txFrames ==> r.value.pctLost == 0.0
  {
    if txFrames == 0 then Err(ZeroDivisionError)
    else
      var lost := txFrames - rxFrames;
      if 0 <= rxFrames <= txFrames then
        var t := txFrames as real;
        assert lost as real <= t;
        assert 100.0 * lost as real / t <= 100.0 * t / t;
        Ok(FlowLoss(lost, 100.0 * lost as real / t))
      else Ok(FlowLoss(lost, 100.0 * lost as real / txFrames as real))
  }

  /** Which way a flow goes: from the WAN device to the CPE device, or back. */
  datatype Direction = Downstream | Upstream

  /** The arguments `run` passes to `create_between` for one flow. */
  datatype FlowRequest = FlowRequest(name: string, flowNumber: int, direction: Direction)

  /**
   * The two creation loops of `run`: "Downstream_1".."Downstream_n" from the WAN device, then
   * "Upstream_1".."Upstream_m" from the CPE device, each numbered from 1.
   */
  method PlanFlows(downstream: nat, upstream: nat) returns (plan: seq<FlowRequest>)
    ensures |plan| == downstream + upstream
    ensures forall i :: 0 <= i < downstream ==>
      plan[i] == FlowRequest("Downstream_" + IntText(i + 1), i + 1, Downstream)
    ensures forall j :: downstream <= j < |plan| ==>
      plan[j] == FlowRequest("Upstream_" + IntText(j - downstream + 1), j - downstream + 1, Upstream)
  {
    plan := [];
    for i := 0 to downstream
      invariant |plan| == i
      invariant forall k :: 0 <= k < i ==>
        plan[k] == FlowRequest("Downstream_" + IntText(k + 1), k + 1, Downstream)
    {
      plan := plan + [FlowRequest("Downstream_" + IntText(i + 1), i + 1, Downstream)];
    }
    for j := 0 to upstream
      invariant |plan| == downstream + j
      invariant forall k :: 0 <= k < downstream ==>
        plan[k] == FlowRequest("Downstream_" + IntText(k + 1), k + 1, Downstream)
      invariant forall k :: downstream <= k < |plan| ==>
        plan[k] == FlowRequest("Upstream_" + IntText(k - downstream + 1), k - downstream + 1, Upstream)
    {
      plan := plan + [FlowRequest("Upstream_" + IntText(j + 1), j + 1, Upstream)];
    }
  }

  function MaxOf(xs: seq<real>): (m: real)
    requires |xs| > 0
    ensures forall i :: 0 <= i < |xs| ==> xs[i] <= m
    ensures exists i :: 0 <= i < |xs| && xs[i] == m
  {
    if |xs| == 1 then xs[0]
    else
      var rest := MaxOf(xs[1..]);
      assert forall i :: 1 <= i < |xs| ==> xs[i] == xs[1..][i - 1];
      if xs[0] >= rest then xs[0] else rest
  }

  /**
   * How long `run_traffic` keeps refreshing: the longest flow plus the extra time (2 s when not
   * given); `max` of no flows raises ValueError.
   */
  function TrafficTime(flowDurations: seq<real>, extra: Option<real>): (r: Result<real>)
    ensures r.Err? <==> flowDurations == []
    ensures r.Err? ==> r.error == ValueError
    ensures r.Ok? ==>
      (forall i :: 0 <= i < |flowDurations| ==> flowDurations[i] + extra.GetOr(2.0) <= r.value) &&
      (exists i :: 0 <= i < |flowDurations| && r.value == flowDurations[i] + extra.GetOr(2.0))
  {
    if flowDurations == [] then Err(ValueError)
    else Ok(MaxOf(flowDurations) + extra.GetOr(2.0))
  }
}
