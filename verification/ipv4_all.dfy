/**
 * wireless_endpoint/ipv4_all.py: a list of traffic configurations (TCP, UDP up, UDP down) run
 * between a ByteBlower port and a Wireless Endpoint; every UDP stream and trigger needs its own
 * UDP port, handed out by one wrapping counter.
 */
module Ipv4All {
  import opened Wrappers
  import opened PyMath
  import opened Text
  import Ethernet
  import Bpf

  const FIRST_PORT := 4096
  const PORT_LIMIT := 0x1_0000
  const PORT_SPAN := PORT_LIMIT - FIRST_PORT

  /** The counter after handing out `p`: one more, wrapping from 65535 back to 4096. */
  function NextPort(p: int): (q: int)
    requires FIRST_PORT <= p < PORT_LIMIT
    ensures FIRST_PORT <= q < PORT_LIMIT
    ensures q == FIRST_PORT + (p - FIRST_PORT + 1) % PORT_SPAN
  {
    if p + 1 >= PORT_LIMIT then FIRST_PORT else p + 1
  }

  /** The counter after `k` ports have been handed out from `p`. */
  function PortAfter(p: int, k: nat): (q: int)
    requires FIRST_PORT <= p < PORT_LIMIT
    ensures FIRST_PORT <= q < PORT_LIMIT
  {
    if k == 0 then p else NextPort(PortAfter(p, k - 1))
  }

  /** Handing out k ports walks the range 4096..65535 cyclically. */
  lemma {:induction false} PortAfterCycles(p: int, k: nat)
    requires FIRST_PORT <= p < PORT_LIMIT
    ensures PortAfter(p, k) == FIRST_PORT + (p - FIRST_PORT + k) % PORT_SPAN
  {
    if k > 0 {
      PortAfterCycles(p, k - 1);
      ModStep(p - FIRST_PORT + k - 1);
    }
  }

  lemma ModStep(a: nat)
    ensures (a % PORT_SPAN + 1) % PORT_SPAN == (a + 1) % PORT_SPAN
  {
    var q := a / PORT_SPAN;
    var r := a % PORT_SPAN;
    assert a == q * PORT_SPAN + r;
    if r + 1 < PORT_SPAN {
      assert a + 1 == q * PORT_SPAN + (r + 1);
    } else {
      assert a + 1 == (q + 1) * PORT_SPAN;
    }
  }

  /** Ports handed out within one cycle are pairwise distinct. */
  lemma PortsDistinctWithinCycle(p: int, i: nat, j: nat)
    requires FIRST_PORT <= p < PORT_LIMIT
    requires i < j < PORT_SPAN
    ensures PortAfter(p, i) != PortAfter(p, j)
  {
    PortAfterCycles(p, i);
    PortAfterCycles(p, j);
  }

  /**
   * `UDPTrafficUp.next_free_UDP_port`, the class attribute that `free_udp` reads and writes for
   * up and down traffic alike.
   */
  class UdpPortAllocator {
    var next: int

    ghost predicate Valid()
      reads this
    {
      FIRST_PORT <= next < PORT_LIMIT
    }

    constructor ()
      ensures Valid() && next == FIRST_PORT
    {
      next := FIRST_PORT;
    }

    /** `free_udp`: return the counter, then advance it, wrapping after 65535. */
    method FreeUdp() returns (current: int)
      requires Valid()
      modifies this
      ensures Valid()
      ensures current == old(next) && FIRST_PORT <= current < PORT_LIMIT
      ensures next == NextPort(old(next))
    {
      current := next;
      next := next + 1;
      if next >= PORT_LIMIT {
        next := FIRST_PORT;
      }
    }
  }

  /** `speed_to_ifg(bit_speed, frame_size)`: the gap in ns that sends `bit_speed` bit/s. */
  function SpeedToIfg(bitSpeed: real, frameSize: int): (r: Result<int>)
    ensures r.Err? <==> bitSpeed == 0.0
    ensures r.Err? ==> r.error == ZeroDivisionError
    ensures r.Ok? && bitSpeed > 0.0 && frameSize >= 0 ==>
      0 <= r.value && r.value as real * bitSpeed <= 8000000000.0 * frameSize as real
      && 8000000000.0 * frameSize as real < (r.value + 1) as real * bitSpeed
  {
    if bitSpeed == 0.0 then Err(ZeroDivisionError)
    else
      var exact := 1000000000.0 * 8.0 * frameSize as real / bitSpeed;
      var n := Trunc(exact);
      if bitSpeed > 0.0 && frameSize >= 0 then
        TruncQuotientFits(1000000000.0 * 8.0 * frameSize as real, bitSpeed);
        Ok(n)
      else Ok(n)
  }

  /** Truncating the gap can only make frames leave faster: the rate is at least `bit_speed`. */
  lemma SpeedToIfgReachesRate(bitSpeed: real, frameSize: int)
    requires bitSpeed > 0.0 && frameSize >= 0
    requires SpeedToIfg(bitSpeed, frameSize).Ok? && SpeedToIfg(bitSpeed, frameSize).value > 0
    ensures 8000000000.0 * frameSize as real / SpeedToIfg(bitSpeed, frameSize).value as real >= bitSpeed
  {
    var g := SpeedToIfg(bitSpeed, frameSize).value as real;
    var bits := 8000000000.0 * frameSize as real;
    assert g * bitSpeed <= bits;
    assert bits / g >= (g * bitSpeed) / g;
  }

  /** A whole number `n` of frames of `cost` bits each, bracketing the exact count, brackets the budget. */
  lemma WholeFramesBracketBudget(frames: real, cost: real, budget: real, n: int)
    requires cost > 0.0 && frames * cost == budget
    requires n as real <= frames < (n + 1) as real
    ensures n as real * cost <= budget < (n + 1) as real * cost
  {
    var d := frames - n as real;
    var lo := n as real * cost;
    assert (n + 1) as real * cost == lo + cost;
    assert budget == lo + d * cost;
    assert 0.0 <= d < 1.0;
    assert 0.0 <= d * cost;
    assert d * cost < cost by {
      assert cost - d * cost == (1.0 - d) * cost;
    }
  }

  /** `int(duration_s * (bit_speed / 8) / total_size)`: the frames that fit the duration. */
  function FrameCount(durationNs: real, bitSpeed: real, frameSize: int): (r: Result<int>)
    ensures r.Err? <==> frameSize == 0
    ensures r.Err? ==> r.error == ZeroDivisionError
    ensures r.Ok? && durationNs >= 0.0 && bitSpeed >= 0.0 && frameSize > 0 ==>
      var budget := durationNs / 1000000000.0 * bitSpeed;
      0 <= r.value && (r.value * frameSize * 8) as real <= budget < ((r.value + 1) * frameSize * 8) as real
  {
    if frameSize == 0 then Err(ZeroDivisionError)
    else
      var frames := durationNs / 1000000000.0 * (bitSpeed / 8.0) / frameSize as real;
      var n := Trunc(frames);
      if durationNs >= 0.0 && bitSpeed >= 0.0 && frameSize > 0 then
        var f := frameSize as real;
        assert frames * f == durationNs / 1000000000.0 * (bitSpeed / 8.0);
        assert durationNs / 1000000000.0 * (bitSpeed / 8.0) >= 0.0;
        assert frames * (8.0 * f) == durationNs / 1000000000.0 * bitSpeed;
        assert frames >= 0.0;
        WholeFramesBracketBudget(frames, 8.0 * f, durationNs / 1000000000.0 * bitSpeed, n);
        assert ((n + 1) * frameSize * 8) as real == (n + 1) as real * (8.0 * f);
        Ok(n)
      else Ok(n)
  }

  /** One entry of the 'traffic' list; absent keys are None and take the script's defaults. */
  datatype TrafficConfig = TrafficConfig(
    kind: string, direction: Option<string>, frameSize: Option<int>,
    bitSpeed: Option<real>, durationNs: Option<real>)

  datatype FlowKind = Tcp | UdpUp | UdpDown

  /**
   * The branch of the dispatch in `run`: "tcp", or "udp" with direction "up" or "down"; other
   * types are skipped, and a "udp" entry without 'direction' raises KeyError.
   */
  function Classify(c: TrafficConfig): (r: Result<Option<FlowKind>>)
    ensures r.Err? <==> c.kind == "udp" && c.direction.None?
    ensures r == Ok(Some(Tcp)) <==> c.kind == "tcp"
    ensures r.Ok? && r.value.Some? && r.value.value != Tcp ==>
      c.kind == "udp" && c.direction.Some? &&
      (r.value.value == UdpUp <==> c.direction.value == "up") &&
      (r.value.value == UdpDown <==> c.direction.value == "down")
  {
    if c.kind == "tcp" then Ok(Some(Tcp))
    else if c.kind != "udp" then Ok(None)
    else if c.direction.None? then Err(KeyError)
    else if c.direction.value == "up" then Ok(Some(UdpUp))
    else if c.direction.value == "down" then Ok(Some(UdpDown))
    else Ok(None)
  }

  predicate UsesPort(c: TrafficConfig)
  {
    Classify(c).Ok? && Classify(c).value.Some? && Classify(c).value.value != Tcp
  }

  /**
   * What a UDP flow's constructor computes once its port is taken, with the defaults of
   * `traffic_config.get`: the inter-frame gap, then the frame count. A zero bit speed fails in
   * `speed_to_ifg`; a zero frame size fails in the frame count that follows it.
   */
  function UdpStreamSetup(c: TrafficConfig): (r: Result<(int, int)>)
    ensures r.Err? <==> c.bitSpeed.GetOr(1000000.0) == 0.0 || c.frameSize.GetOr(1024) == 0
    ensures r.Err? ==> r.error == ZeroDivisionError
    ensures r.Ok? ==>
      SpeedToIfg(c.bitSpeed.GetOr(1000000.0), c.frameSize.GetOr(1024)) == Ok(r.value.0) &&
      FrameCount(c.durationNs.GetOr(1000000000.0), c.bitSpeed.GetOr(1000000.0), c.frameSize.GetOr(1024)) == Ok(r.value.1)
  {
    var speed, size := c.bitSpeed.GetOr(1000000.0), c.frameSize.GetOr(1024);
    match SpeedToIfg(speed, size)
    case Err(e) => Err(e)
    case Ok(gap) =>
      match FrameCount(c.durationNs.GetOr(1000000000.0), speed, size)
      case Err(e) => Err(e)
      case Ok(frames) => Ok((gap, frames))
  }

  /** A configuration the dispatch turns into a flow without raising. */
  predicate Builds(c: TrafficConfig)
  {
    Classify(c).Ok? && (UsesPort(c) ==> UdpStreamSetup(c).Ok?)
  }

  /** A created flow: its kind, the configuration it was built from and its UDP port. */
  datatype Flow = Flow(kind: FlowKind, config: TrafficConfig, port: Option<int>)

  function CountUdp(configs: seq<TrafficConfig>): nat
  {
    if configs == [] then 0
    else CountUdp(configs[..|configs| - 1]) + (if UsesPort(configs[|configs| - 1]) then 1 else 0)
  }

  /**
   * The flows `run` creates from the configurations, in order, when the counter starts at
   * `start`: the n-th UDP flow (up or down) takes the counter after n earlier UDP flows.
   */
  function FlowsFrom(configs: seq<TrafficConfig>, start: int): Result<seq<Flow>>
    requires FIRST_PORT <= start < PORT_LIMIT
  {
    if configs == [] then Ok([])
    else
      var front := configs[..|configs| - 1];
      var last := configs[|configs| - 1];
      match FlowsFrom(front, start)
      case Err(e) => Err(e)
      case Ok(fs) =>
        match Classify(last)
        case Err(e) => Err(e)
        case Ok(None) => Ok(fs)
        case Ok(Some(k)) =>
          if k != Tcp && UdpStreamSetup(last).Err? then Err(UdpStreamSetup(last).error)
          else Ok(fs + [Flow(k, last, if k == Tcp then None else Some(PortAfter(start, CountUdp(front))))])
  }

  lemma {:induction false} FlowsErrorPersists(configs: seq<TrafficConfig>, start: int, i: nat)
    requires FIRST_PORT <= start < PORT_LIMIT
    requires i <= |configs| && FlowsFrom(configs[..i], start).Err?
    ensures FlowsFrom(configs, start) == FlowsFrom(configs[..i], start)
    decreases |configs| - i
  {
    if i < |configs| {
      assert configs[..i + 1][..i] == configs[..i];
      FlowsErrorPersists(configs, start, i + 1);
    } else {
      assert configs[..i] == configs;
    }
  }

  /** The dispatch loop of `run`: one flow per recognised configuration, sharing one counter. */
  method CreateFlows(configs: seq<TrafficConfig>, allocator: UdpPortAllocator)
    returns (r: Result<seq<Flow>>)
    requires allocator.Valid()
    modifies allocator
    ensures allocator.Valid()
    ensures r == FlowsFrom(configs, old(allocator.next))
    ensures r.Ok? ==> allocator.next == PortAfter(old(allocator.next), CountUdp(configs))
  {
    var start := allocator.next;
    var flows := [];
    for i := 0 to |configs|
      invariant allocator.Valid()
      invariant FlowsFrom(configs[..i], start) == Ok(flows)
      invariant allocator.next == PortAfter(start, CountUdp(configs[..i]))
    {
      assert configs[..i + 1][..i] == configs[..i];
      var c := configs[i];
      if c.kind == "tcp" {
        flows := flows + [Flow(Tcp, c, None)];
      } else if c.kind == "udp" && c.direction.None? {
        FlowsErrorPersists(configs, start, i + 1);
        return Err(KeyError);
      } else if c.kind == "udp" && (c.direction.value == "up" || c.direction.value == "down") {
        var port := allocator.FreeUdp();
        var setup := UdpStreamSetup(c);
        if setup.Err? {
          FlowsErrorPersists(configs, start, i + 1);
          return Err(setup.error);
        }
        flows := flows + [Flow(if c.direction.value == "up" then UdpUp else UdpDown, c, Some(port))];
      }
    }
    assert configs[..|configs|] == configs;
    return Ok(flows);
  }

  /** Every created flow was built from a recognised configuration, in configuration order. */
  lemma {:induction false} FlowsAreRecognised(configs: seq<TrafficConfig>, start: int)
    requires FIRST_PORT <= start < PORT_LIMIT
    requires FlowsFrom(configs, start).Ok?
    ensures var fs := FlowsFrom(configs, start).value;
      |fs| <= |configs| &&
      forall i :: 0 <= i < |fs| ==> Classify(fs[i].config) == Ok(Some(fs[i].kind))
  {
    if configs != [] {
      FlowsAreRecognised(configs[..|configs| - 1], start);
    }
  }

  /**
   * The dispatch succeeds exactly when every configuration builds: none is a "udp" entry without
   * a direction, and no UDP flow has a zero bit speed or frame size.
   */
  lemma {:induction false} FlowsOkIffEveryConfigBuilds(configs: seq<TrafficConfig>, start: int)
    requires FIRST_PORT <= start < PORT_LIMIT
    ensures FlowsFrom(configs, start).Ok? <==> forall i :: 0 <= i < |configs| ==> Builds(configs[i])
  {
    if configs != [] {
      var front := configs[..|configs| - 1];
      FlowsOkIffEveryConfigBuilds(front, start);
      assert forall i :: 0 <= i < |front| ==> front[i] == configs[i];
    }
  }

  /** With every configuration recognised and buildable, flow i was built from configuration i. */
  lemma {:induction false} FlowsAlignedWhenAllRecognised(configs: seq<TrafficConfig>, start: int)
    requires FIRST_PORT <= start < PORT_LIMIT
    requires forall i :: 0 <= i < |configs| ==> Classify(configs[i]).Ok? && Classify(configs[i]).value.Some?
    requires forall i :: 0 <= i < |configs| ==> UsesPort(configs[i]) ==> UdpStreamSetup(configs[i]).Ok?
    ensures FlowsFrom(configs, start).Ok?
    ensures |FlowsFrom(configs, start).value| == |configs|
    ensures forall i :: 0 <= i < |configs| ==> FlowsFrom(configs, start).value[i].config == configs[i]
  {
    if configs != [] {
      FlowsAlignedWhenAllRecognised(configs[..|configs| - 1], start);
    }
  }

  /** The UDP ports of the flows that have one, in flow order. */
  function UdpPorts(flows: seq<Flow>): seq<int>
  {
    if flows == [] then []
    else UdpPorts(flows[..|flows| - 1])
         + (if flows[|flows| - 1].port.Some? then [flows[|flows| - 1].port.value] else [])
  }

  lemma UdpPortsAppend(flows: seq<Flow>, f: Flow)
    ensures UdpPorts(flows + [f]) == UdpPorts(flows) + (if f.port.Some? then [f.port.value] else [])
  {
    assert (flows + [f])[..|flows|] == flows;
  }

  /**
   * Up and down flows draw from the one counter: the UDP flows, whatever their direction, get
   * consecutive counter values starting at `start`, so within one cycle no port repeats.
   */
  lemma {:induction false} SharedCounter(configs: seq<TrafficConfig>, start: int)
    requires FIRST_PORT <= start < PORT_LIMIT
    requires FlowsFrom(configs, start).Ok?
    ensures var ports := UdpPorts(FlowsFrom(configs, start).value);
      |ports| == CountUdp(configs) &&
      forall j :: 0 <= j < |ports| ==> ports[j] == PortAfter(start, j)
  {
    if configs != [] {
      var front := configs[..|configs| - 1];
      SharedCounter(front, start);
      var fs := FlowsFrom(front, start).value;
      match Classify(configs[|configs| - 1])
      case Ok(None) =>
      case Ok(Some(k)) =>
        UdpPortsAppend(fs, Flow(k, configs[|configs| - 1],
                                if k == Tcp then None else Some(PortAfter(start, CountUdp(front)))));
    }
  }

  /** The results list: each flow's result labelled with the configuration at the same index. */
  function Report(configs: seq<TrafficConfig>, flows: seq<Flow>): (r: seq<(TrafficConfig, Flow)>)
    ensures |r| == if |configs| < |flows| then |configs| else |flows|
    ensures forall i :: 0 <= i < |r| ==> r[i] == (configs[i], flows[i])
  {
    if configs == [] || flows == [] then [] else [(configs[0], flows[0])] + Report(configs[1..], flows[1..])
  }

  /**
   * A skipped configuration shifts the labels: the result at its index belongs to a flow built
   * from another configuration.
   */
  lemma SkippedConfigMisaligns(configs: seq<TrafficConfig>, start: int, i: nat)
    requires FIRST_PORT <= start < PORT_LIMIT
    requires FlowsFrom(configs, start).Ok?
    requires i < |configs| && Classify(configs[i]) == Ok(None)
    requires i < |FlowsFrom(configs, start).value|
    ensures Report(configs, FlowsFrom(configs, start).value)[i].0 == configs[i]
    ensures Report(configs, FlowsFrom(configs, start).value)[i].1.config != configs[i]
  {
    FlowsAreRecognised(configs, start);
  }

  /** A TCP session's cumulative result as the HTTP server reports it. */
  datatype SessionResult = SessionResult(
    rxBytes: int, txBytes: int, rxFirst: int, txFirst: int, rxLast: int, txLast: int)

  /** The result dict of `gather_results`; `bitspeed` is a float. */
  datatype TrafficResult = TrafficResult(bytecount: int, duration: int, bitspeed: real)

  function Max(a: int, b: int): int { if a < b then b else a }
  function Min(a: int, b: int): int { if a < b then a else b }

  function SessionBytes(sessions: seq<SessionResult>): int
  {
    if sessions == [] then 0
    else SessionBytes(sessions[..|sessions| - 1])
         + Max(sessions[|sessions| - 1].rxBytes, sessions[|sessions| - 1].txBytes)
  }

  /** The earliest first timestamp over all sessions; None plays the role of +inf. */
  function Earliest(sessions: seq<SessionResult>): (r: Option<int>)
    ensures r.None? <==> sessions == []
  {
    if sessions == [] then None
    else
      var s := sessions[|sessions| - 1];
      var here := Min(s.rxFirst, s.txFirst);
      match Earliest(sessions[..|sessions| - 1])
      case None => Some(here)
      case Some(e) => Some(Min(here, e))
  }

  /** The earliest timestamp is no later than any first timestamp and is one of them. */
  lemma {:induction false} EarliestIsMinimum(sessions: seq<SessionResult>)
    requires sessions != []
    ensures var e := Earliest(sessions).value;
      forall i :: 0 <= i < |sessions| ==> e <= sessions[i].rxFirst && e <= sessions[i].txFirst
    ensures var e := Earliest(sessions).value;
      exists i :: 0 <= i < |sessions| && (e == sessions[i].rxFirst || e == sessions[i].txFirst)
    decreases |sessions|
  {
    var init, s := sessions[..|sessions| - 1], sessions[|sessions| - 1];
    var e := Earliest(sessions).value;
    assert forall i :: 0 <= i < |init| ==> sessions[i] == init[i];
    if init == [] || Min(s.rxFirst, s.txFirst) <= Earliest(init).value {
      assert e == s.rxFirst || e == s.txFirst;
    }
    if init != [] {
      EarliestIsMinimum(init);
      if Earliest(init).value < Min(s.rxFirst, s.txFirst) {
        var k :| 0 <= k < |init| && (Earliest(init).value == init[k].rxFirst || Earliest(init).value == init[k].txFirst);
        assert e == sessions[k].rxFirst || e == sessions[k].txFirst;
      }
    }
  }

  /** The latest last timestamp over all sessions; None plays the role of -inf. */
  function Latest(sessions: seq<SessionResult>): (r: Option<int>)
    ensures r.None? <==> sessions == []
  {
    if sessions == [] then None
    else
      var s := sessions[|sessions| - 1];
      var here := Max(s.rxLast, s.txLast);
      match Latest(sessions[..|sessions| - 1])
      case None => Some(here)
      case Some(e) => Some(Max(here, e))
  }

  /** The latest timestamp is no earlier than any last timestamp and is one of them. */
  lemma {:induction false} LatestIsMaximum(sessions: seq<SessionResult>)
    requires sessions != []
    ensures var l := Latest(sessions).value;
      forall i :: 0 <= i < |sessions| ==> sessions[i].rxLast <= l && sessions[i].txLast <= l
    ensures var l := Latest(sessions).value;
      exists i :: 0 <= i < |sessions| && (l == sessions[i].rxLast || l == sessions[i].txLast)
    decreases |sessions|
  {
    var init, s := sessions[..|sessions| - 1], sessions[|sessions| - 1];
    var l := Latest(sessions).value;
    assert forall i :: 0 <= i < |init| ==> sessions[i] == init[i];
    if init == [] || Latest(init).value <= Max(s.rxLast, s.txLast) {
      assert l == s.rxLast || l == s.txLast;
    }
    if init != [] {
      LatestIsMaximum(init);
      if Max(s.rxLast, s.txLast) < Latest(init).value {
        var k :| 0 <= k < |init| && (Latest(init).value == init[k].rxLast || Latest(init).value == init[k].txLast);
        assert l == sessions[k].rxLast || l == sessions[k].txLast;
      }
    }
  }

  /**
   * The TCP result: the larger of received and sent bytes summed over sessions, the span from
   * the earliest first to the latest last timestamp, and the bit rate over that span. Without
   * sessions everything stays 0; a zero span divides by zero.
   */
  function TcpResult(sessions: seq<SessionResult>): (r: Result<TrafficResult>)
    ensures sessions == [] ==> r == Ok(TrafficResult(0, 0, 0.0))
    ensures r.Err? <==> sessions != [] && Earliest(sessions) == Latest(sessions)
    ensures r.Ok? && sessions != [] ==>
      r.value.duration == Latest(sessions).value - Earliest(sessions).value &&
      r.value.bytecount == SessionBytes(sessions) &&
      r.value.bitspeed * r.value.duration as real == 8.0 * r.value.bytecount as real * 1000000000.0
  {
    if sessions == [] then Ok(TrafficResult(0, 0, 0.0))
    else
      var duration := Latest(sessions).value - Earliest(sessions).value;
      if duration == 0 then Err(ZeroDivisionError)
      else
        var bits := 8.0 * SessionBytes(sessions) as real * 1000000000.0;
        DivTimes(bits, duration as real);
        Ok(TrafficResult(SessionBytes(sessions), duration, bits / duration as real))
  }

  /** `TCPTraffic.gather_results`: one pass over the sessions, as the script does it. */
  method GatherTcpResults(sessions: seq<SessionResult>) returns (r: Result<TrafficResult>)
    ensures r == TcpResult(sessions)
  {
    var bytecount := 0;
    var start: Option<int> := None;
    var end: Option<int> := None;
    for i := 0 to |sessions|
      invariant bytecount == SessionBytes(sessions[..i])
      invariant start == Earliest(sessions[..i]) && end == Latest(sessions[..i])
    {
      assert sessions[..i + 1][..i] == sessions[..i];
      var s := sessions[i];
      bytecount := bytecount + Max(s.rxBytes, s.txBytes);
      start := Some(if start.None? then Min(s.rxFirst, s.txFirst) else Min(Min(s.rxFirst, s.txFirst), start.value));
      end := Some(if end.None? then Max(s.rxLast, s.txLast) else Max(Max(s.rxLast, s.txLast), end.value));
    }
    assert sessions[..|sessions|] == sessions;
    if start.Some? && end.Some? {
      var duration := end.value - start.value;
      if duration == 0 {
        return Err(ZeroDivisionError);
      }
      return Ok(TrafficResult(bytecount, duration, 8.0 * bytecount as real * 1000000000.0 / duration as real));
    }
    return Ok(TrafficResult(0, 0, 0.0));
  }

  /**
   * `UDPTraffic.gather_results`: received bytes, and only when some arrived the shorter of the
   * receive and transmit spans and the bit rate over it (a zero span divides by zero).
   */
  function UdpResult(rxBytes: int, rxFirst: int, rxLast: int, txFirst: int, txLast: int)
    : (r: Result<TrafficResult>)
    ensures rxBytes <= 0 ==> r == Ok(TrafficResult(rxBytes, 0, 0.0))
    ensures r.Err? <==> rxBytes > 0 && Min(rxLast - rxFirst, txLast - txFirst) == 0
    ensures r.Ok? && rxBytes > 0 ==>
      r.value.bytecount == rxBytes &&
      r.value.duration <= rxLast - rxFirst && r.value.duration <= txLast - txFirst &&
      (r.value.duration == rxLast - rxFirst || r.value.duration == txLast - txFirst) &&
      r.value.bitspeed * r.value.duration as real == 8.0 * rxBytes as real * 1000000000.0
  {
    if rxBytes > 0 then
      var duration := Min(rxLast - rxFirst, txLast - txFirst);
      if duration == 0 then Err(ZeroDivisionError)
      else Ok(TrafficResult(rxBytes, duration, 8.0 * rxBytes as real * 1000000000.0 / duration as real))
    else Ok(TrafficResult(rxBytes, 0, 0.0))
  }

  /** The payload of both UDP directions: `total_size - (14 + 20 + 8)` bytes. */
  function UdpPayloadLength(c: TrafficConfig): (n: nat)
    ensures c.frameSize.None? ==> n == 982
    ensures c.frameSize.Some? && c.frameSize.value >= Ethernet.UDP_OVERHEAD ==>
      n + Ethernet.UDP_OVERHEAD == c.frameSize.value
    ensures c.frameSize.Some? && c.frameSize.value < Ethernet.UDP_OVERHEAD ==> n == 0
  {
    Ethernet.PayloadLength(c.frameSize.GetOr(1024), 42)
  }

  /** The upstream trigger's filter, `"ip and udp dst port {}"`. */
  function UpstreamFilter(port: int): (r: string)
    ensures r == Bpf.Conjunction([Bpf.Ip, Bpf.UdpDstPort(port)])
  {
    Bpf.Conjunction2(Bpf.Ip, Bpf.UdpDstPort(port));
    "ip and udp dst port " + IntText(port)
  }

  /**
   * The downstream trigger listens `int(1e9 * (duration_s + 2))` ns, two seconds beyond the
   * stream; both directions keep `int(duration_s) + 20` history samples.
   */
  function TriggerDuration(durationNs: real): (r: int)
    ensures durationNs >= 0.0 ==> r >= 2000000000 && r as real <= durationNs + 2000000000.0 < r as real + 1.0
  {
    Trunc(1000000000.0 * (durationNs / 1000000000.0 + 2.0))
  }

  function SamplingBufferLength(durationNs: real): (r: int)
    ensures durationNs >= 0.0 ==> 20.0 + durationNs / 1000000000.0 - 1.0 < r as real <= 20.0 + durationNs / 1000000000.0
  {
    Trunc(durationNs / 1000000000.0) + 20
  }
}
