/**
 * back2back/use_cases/ping_flood.py: a ping flood from one ByteBlower port to another. The
 * frame is sent at a rate derived from the requested speed for ten seconds, and triggers on
 * both ports count the echo requests and replies that arrive.
 */
module PingFlood {
  import opened Wrappers
  import opened Text
  import opened PyMath
  import Hex
  import MacText

  /** `create_mac_address`: "00", "bb" and six random bytes in two-digit hex, joined by colons. */
  function CreateMacAddress(random: seq<Hex.Byte>): (r: string)
    requires |random| == 6
  {
    Join(["00", "bb"] + MacText.Groups(random), ":")
  }

  /**
   * The address `create_mac_address` builds has eight colon-separated groups of two hex digits,
   * 23 characters: it is not a six-octet MAC address.
   */
  lemma CreateMacAddressHasEightGroups(random: seq<Hex.Byte>)
    requires |random| == 6
    ensures Split(CreateMacAddress(random), ':') == ["00", "bb"] + MacText.Groups(random)
    ensures |Split(CreateMacAddress(random), ':')| == 8
    ensures |CreateMacAddress(random)| == 23
    ensures !MacText.WellFormed(CreateMacAddress(random))
  {
    var g := ["00", "bb"] + MacText.Groups(random);
    forall i | 0 <= i < 8
      ensures |g[i]| == 2 && ':' !in g[i]
    {
      if i >= 2 {
        Hex.FormatExact(random[i - 2], 2);
        assert Hex.AllHex(g[i]);
      }
    }
    SplitJoin(g, ':');
    JoinUniformLength(g, ":", 2);
  }

  /** `frame_overhead`: preamble, start-of-frame delimiter, CRC and inter-frame gap in bytes. */
  const FRAME_OVERHEAD := 24

  /** The send time of the ping flood in seconds. */
  const DURATION := 10

  /** `frame_size = len(hexbytes) / 2`: the frame length in bytes, from its two-digit hex text. */
  function FrameSize(frame: seq<Hex.Byte>): (r: real)
    ensures r == |frame| as real
  {
    |Hex.Encode(frame)| as real / 2.0
  }

  /** `gap`: the seconds between two frames, the frame's bits on the wire over the speed in bit/s. */
  function Gap(frameSize: real, speedBps: real): (r: Result<real>)
    ensures r.Err? <==> speedBps == 0.0
    ensures r.Err? ==> r.error == ZeroDivisionError
    ensures r.Ok? ==> r.value * speedBps == (frameSize + FRAME_OVERHEAD as real) * 8.0
  {
    if speedBps == 0.0 then Err(ZeroDivisionError)
    else Ok(((frameSize + FRAME_OVERHEAD as real) * 8.0) / speedBps)
  }

  /** `int(1e9 * gap)`: the inter-frame gap handed to the stream, in whole nanoseconds. */
  function InterFrameGapNs(gap: real): (r: int)
    ensures gap >= 0.0 ==> r as real <= 1000000000.0 * gap < r as real + 1.0
  {
    Trunc(1000000000.0 * gap)
  }

  /** `n_frames = int(duration / gap)`. */
  function NumberOfFrames(gap: real): (r: Result<int>)
    ensures r.Err? <==> gap == 0.0
    ensures r.Err? ==> r.error == ZeroDivisionError
    ensures r.Ok? && gap > 0.0 ==> 0 <= r.value && r.value as real <= DURATION as real / gap < (r.value + 1) as real
  {
    if gap == 0.0 then Err(ZeroDivisionError) else Ok(Trunc(DURATION as real / gap))
  }

  /** What `test_connection` returns: the frames sent, the request rate and the two trigger counts. */
  datatype Report = Report(nFrames: int, requestsPerSecond: real, rxEcho: int, rxReply: int)

  /**
   * `test_connection`: the stream's gap and frame count and the report; the trigger counts
   * come from the ports and are parameters.
   */
  function TestConnection(frame: seq<Hex.Byte>, speedBps: real, rxEcho: int, rxReply: int): (r: Result<(int, Report)>)
    ensures r.Err? <==> speedBps == 0.0
    ensures r.Ok? ==> r.value.1.rxEcho == rxEcho && r.value.1.rxReply == rxReply
  {
    var gap := Gap(FrameSize(frame), speedBps);
    if gap.Err? then Err(gap.error)
    else
      var nFrames := NumberOfFrames(gap.value);
      Ok((InterFrameGapNs(gap.value), Report(nFrames.value, 1.0 / gap.value, rxEcho, rxReply)))
  }

  /**
   * At a positive speed the flood sends whole frames that fit in the ten seconds, at the
   * reported rate: the frame count times the gap never exceeds ten seconds and one more frame
   * would, and the rate times the gap is one.
   */
  lemma FloodFitsDuration(frame: seq<Hex.Byte>, speedBps: real, rxEcho: int, rxReply: int)
    requires speedBps > 0.0
    ensures var r := TestConnection(frame, speedBps, rxEcho, rxReply);
      var gap := (|frame| + FRAME_OVERHEAD) as real * 8.0 / speedBps;
      r.Ok? && gap > 0.0 &&
      r.value.1.nFrames as real * gap <= DURATION as real < (r.value.1.nFrames + 1) as real * gap &&
      r.value.1.requestsPerSecond * gap == 1.0 &&
      r.value.0 == InterFrameGapNs(gap)
  {
    var gap := (|frame| + FRAME_OVERHEAD) as real * 8.0 / speedBps;
    assert gap > 0.0;
    assert Gap(FrameSize(frame), speedBps) == Ok(gap);
    TruncQuotientFits(DURATION as real, gap);
    assert (1.0 / gap) * gap == 1.0;
  }

  /** The share of the requests that a trigger saw, `(100. * rx) / n_req`. */
  function Percentage(rx: int, nRequests: int): (r: Result<real>)
    ensures r.Err? <==> nRequests == 0
    ensures r.Err? ==> r.error == ZeroDivisionError
    ensures r.Ok? ==> r.value * nRequests as real == 100.0 * rx as real
    ensures r.Ok? && 0 <= rx <= nRequests ==> 0.0 <= r.value <= 100.0
  {
    if nRequests == 0 then Err(ZeroDivisionError) else Ok((100.0 * rx as real) / nRequests as real)
  }

  /**
   * The summary fails to print with ZeroDivisionError exactly when the gap exceeds the ten
   * seconds, so that no whole frame fits.
   */
  lemma SummaryFailsOnlyForSlowSpeeds(gap: real)
    requires gap > 0.0
    ensures NumberOfFrames(gap).Ok?
    ensures Percentage(0, NumberOfFrames(gap).value).Err? <==> gap > DURATION as real
  {
    var n := NumberOfFrames(gap).value;
    if gap > DURATION as real {
      assert DURATION as real / gap < 1.0;
    } else {
      assert DURATION as real / gap >= 1.0;
    }
  }

  /** The command line: usage and exit, a speed that does not parse, or a run. */
  datatype Invocation =
    | Usage
    | MissingArgument
    | BadSpeed
    | Run(serverAddress: string, srcInterface: string, dstInterface: string, speedMbps: real)

  /** The default speed in Mbit/s. */
  const DEFAULT_SPEED_MBPS := 999.0

  /**
   * The `__main__` argument rule: three or four arguments (argv of length 4 or 5); the speed
   * is the fourth when given, parsed by `floatOf`, else 999.
   */
  function ParseArguments(argv: seq<string>, floatOf: string -> Option<real>): (r: Invocation)
    ensures r.Run? <==> 4 <= |argv| <= 5 && (|argv| == 5 ==> floatOf(argv[4]).Some?)
    ensures r.Usage? <==> !(4 <= |argv| <= 5)
    ensures r.Run? ==> r.serverAddress == argv[1] && r.srcInterface == argv[2] && r.dstInterface == argv[3]
    ensures r.Run? ==> r.speedMbps == (if |argv| == 5 then floatOf(argv[4]).value else DEFAULT_SPEED_MBPS)
  {
    if !(4 <= |argv| <= 5) then Usage
    else if |argv| == 5 && floatOf(argv[4]).None? then BadSpeed
    else Run(argv[1], argv[2], argv[3], if |argv| == 5 then floatOf(argv[4]).value else DEFAULT_SPEED_MBPS)
  }

  /** `a_mbit`: the speed in bit/s handed to `test_connection`. */
  function SpeedBps(speedMbps: real): (r: real)
    ensures r / 1000000.0 == speedMbps
  {
    speedMbps * 1000000.0
  }
}

/**
 * back2back/use-cases/ping_flood.py: an older copy of the ping flood. It differs from the
 * use_cases copy in its gap (no factor 8), its argument handling, and its use of `time.sleep`
 * where only `sleep` is imported.
 */
module PingFloodDash {
  import opened Wrappers
  import opened PyMath
  import Hex
  import PingFlood

  /** `gap = (frame_size + frame_overhead) / float(speed)`: bytes over bit/s, without the factor 8. */
  function Gap(frameSize: real, speedBps: real): (r: Result<real>)
    ensures r.Err? <==> speedBps == 0.0
    ensures r.Err? ==> r.error == ZeroDivisionError
    ensures r.Ok? ==> r.value * speedBps == frameSize + PingFlood.FRAME_OVERHEAD as real
  {
    if speedBps == 0.0 then Err(ZeroDivisionError)
    else Ok((frameSize + PingFlood.FRAME_OVERHEAD as real) / speedBps)
  }

  /** The gap of this copy is one eighth of the use_cases copy's, so it sends eight times as fast. */
  lemma GapIsOneEighth(frameSize: real, speedBps: real)
    requires speedBps != 0.0
    ensures Gap(frameSize, speedBps).Ok? && PingFlood.Gap(frameSize, speedBps).Ok?
    ensures Gap(frameSize, speedBps).value * 8.0 == PingFlood.Gap(frameSize, speedBps).value
  {
  }

  /**
   * `test_connection` as written: after configuring and starting the stream it calls
   * `time.sleep`, but only `sleep` was imported from `time`, so it raises NameError and never
   * reports (when the speed is zero the gap raises ZeroDivisionError first).
   */
  function TestConnection(frame: seq<Hex.Byte>, speedBps: real, rxEcho: int, rxReply: int): (r: Result<(int, PingFlood.Report)>)
    ensures r.Err?
    ensures r.error == (if speedBps == 0.0 then ZeroDivisionError else NameError)
  {
    var gap := Gap(PingFlood.FrameSize(frame), speedBps);
    if gap.Err? then Err(gap.error) else Err(NameError)
  }

  /**
   * `test_connection` as evidently intended (with the module `time` imported): the report of
   * the use_cases copy, with this copy's gap.
   */
  function TestConnectionCorrected(frame: seq<Hex.Byte>, speedBps: real, rxEcho: int, rxReply: int): (r: Result<(int, PingFlood.Report)>)
    ensures r.Err? <==> speedBps == 0.0
    ensures r.Ok? ==> r.value.1.rxEcho == rxEcho && r.value.1.rxReply == rxReply
  {
    var gap := Gap(PingFlood.FrameSize(frame), speedBps);
    if gap.Err? then Err(gap.error)
    else
      var nFrames := PingFlood.NumberOfFrames(gap.value);
      Ok((PingFlood.InterFrameGapNs(gap.value), PingFlood.Report(nFrames.value, 1.0 / gap.value, rxEcho, rxReply)))
  }

  /**
   * The corrected test at a positive speed sends whole frames that fit in ten seconds at the
   * reported rate, as the use_cases copy does.
   */
  lemma CorrectedFloodFitsDuration(frame: seq<Hex.Byte>, speedBps: real, rxEcho: int, rxReply: int)
    requires speedBps > 0.0
    ensures var r := TestConnectionCorrected(frame, speedBps, rxEcho, rxReply);
      var gap := (|frame| + PingFlood.FRAME_OVERHEAD) as real / speedBps;
      r.Ok? && gap > 0.0 &&
      r.value.1.nFrames as real * gap <= PingFlood.DURATION as real < (r.value.1.nFrames + 1) as real * gap &&
      r.value.1.requestsPerSecond * gap == 1.0 &&
      r.value.0 == PingFlood.InterFrameGapNs(gap)
  {
    var gap := (|frame| + PingFlood.FRAME_OVERHEAD) as real / speedBps;
    assert gap > 0.0;
    assert Gap(PingFlood.FrameSize(frame), speedBps) == Ok(gap);
    TruncQuotientFits(PingFlood.DURATION as real, gap);
    assert (1.0 / gap) * gap == 1.0;
  }

  /**
   * The `__main__` argument handling: no count check, argv[1..3] indexed (IndexError when
   * missing), and the speed parsed only when argv has exactly five elements, else 999.
   */
  function ParseArguments(argv: seq<string>, floatOf: string -> Option<real>): (r: PingFlood.Invocation)
    ensures !r.Usage?
    ensures r.MissingArgument? <==> |argv| < 4
    ensures r.Run? <==> |argv| >= 4 && (|argv| == 5 ==> floatOf(argv[4]).Some?)
    ensures r.Run? ==> r.serverAddress == argv[1] && r.srcInterface == argv[2] && r.dstInterface == argv[3]
    ensures r.Run? ==> r.speedMbps == (if |argv| == 5 then floatOf(argv[4]).value else PingFlood.DEFAULT_SPEED_MBPS)
  {
    if |argv| < 4 then PingFlood.MissingArgument
    else if |argv| == 5 && floatOf(argv[4]).None? then PingFlood.BadSpeed
    else PingFlood.Run(argv[1], argv[2], argv[3], if |argv| == 5 then floatOf(argv[4]).value else PingFlood.DEFAULT_SPEED_MBPS)
  }

  /** The two copies agree on three or four arguments; with five or more only this copy runs, at 999 Mbit/s. */
  lemma ArgumentRulesCompared(argv: seq<string>, floatOf: string -> Option<real>)
    ensures 4 <= |argv| <= 5 ==> ParseArguments(argv, floatOf) == PingFlood.ParseArguments(argv, floatOf)
    ensures |argv| > 5 ==> (PingFlood.ParseArguments(argv, floatOf).Usage? &&
      ParseArguments(argv, floatOf).Run? && ParseArguments(argv, floatOf).speedMbps == PingFlood.DEFAULT_SPEED_MBPS)
  {
  }
}
