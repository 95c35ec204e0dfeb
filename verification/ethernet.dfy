/**
 * Ethernet sizing shared by the frame-blasting scripts: the layer-1 overhead that turns a
 * throughput into an inter-frame gap (IEEE 802.3 clause 3.1.1 frame format with its 4-byte FCS,
 * the 8-byte preamble and start-of-frame delimiter, and the 12-byte interFrameGap of clause
 * 4.4.2), header lengths, and the hex text of a frame whose payload is all 'a'.
 */
module Ethernet {
  import opened Wrappers
  import opened PyMath
  import Hex

  const PAUSE := 12
  const PREAMBLE_SFD := 8
  const CRC_LEN := 4
  const ETHERNET_HEADER := 14
  const VLAN_HEADER := 4
  const IPV4_HEADER := 20
  const UDP_HEADER := 8
  /** Ethernet + IPv4 + UDP headers: the 42 bytes subtracted from every UDP frame size. */
  const UDP_OVERHEAD := ETHERNET_HEADER + IPV4_HEADER + UDP_HEADER

  /** Bytes a frame of `frameSize` (layer 2, without CRC) occupies on the wire. */
  function Layer1Size(frameSize: int): int
  {
    PAUSE + PREAMBLE_SFD + frameSize + CRC_LEN
  }

  /**
   * `calculate_interframegap(throughput)`: the frame interval in ns for a throughput in
   * Mbit/s, rounded up. A zero throughput (or a frame of -24 bytes) divides by zero.
   */
  function InterframeGap(frameSize: int, throughputMbps: real): (r: Result<int>)
    ensures r.Err? <==> Layer1Size(frameSize) == 0 || throughputMbps == 0.0
    ensures r.Err? ==> r.error == ZeroDivisionError
    ensures r.Ok? ==>
      var exact := (Layer1Size(frameSize) * 8) as real * 1000.0 / throughputMbps;
      exact <= r.value as real < exact + 1.0
  {
    var bits := Layer1Size(frameSize) * 8;
    if bits == 0 then Err(ZeroDivisionError)
    else
      var fps := throughputMbps * 1000000.0 / bits as real;
      if fps == 0.0 then Err(ZeroDivisionError)
      else
        assert 1000000000.0 / fps == bits as real * 1000.0 / throughputMbps;
        Ok(Ceil(1000000000.0 / fps))
  }

  /**
   * The gap a script's `__init__` keeps in `interframegap_ns`: a given throughput (Mbit/s)
   * replaces the configured gap by the computed one; without it the configured gap stays.
   */
  function StreamGap(configuredNs: int, frameSize: int, throughput: Option<real>): (r: Result<int>)
    ensures throughput.None? ==> r == Ok(configuredNs)
    ensures throughput.Some? ==> r == InterframeGap(frameSize, throughput.value)
    ensures throughput.Some? && throughput.value > 0.0 && frameSize > -24 ==>
      r.Ok? && r.value as real >= (Layer1Size(frameSize) * 8) as real * 1000.0 / throughput.value
    ensures throughput.Some? && throughput.value == 0.0 ==> r == Err(ZeroDivisionError)
  {
    match throughput
    case None => Ok(configuredNs)
    case Some(t) => InterframeGap(frameSize, t)
  }

  lemma DivMonotone(a: real, b: real, t: real)
    requires a <= b && t > 0.0
    ensures a / t <= b / t
  {
    assert b / t - a / t == (b - a) / t;
  }

  lemma DivAntitone(a: real, t1: real, t2: real)
    requires a >= 0.0 && 0.0 < t2 <= t1
    ensures a / t1 <= a / t2
  {
    assert a / t2 - a / t1 == (a * (t1 - t2)) / (t1 * t2);
  }

  /** The gap in closed form: the exact interval, rounded up. */
  lemma InterframeGapClosed(f: int, t: real)
    requires Layer1Size(f) != 0 && t != 0.0
    ensures InterframeGap(f, t) == Ok(Ceil((Layer1Size(f) * 8) as real * 1000.0 / t))
  {
    var bits := Layer1Size(f) * 8;
    var fps := t * 1000000.0 / bits as real;
    assert fps != 0.0;
    assert 1000000000.0 / fps == bits as real * 1000.0 / t;
  }

  /** Bigger frames never get a shorter gap; faster links never get a longer one. */
  lemma InterframeGapMonotone(f1: int, f2: int, t1: real, t2: real)
    requires -24 < f1 <= f2 && 0.0 < t2 <= t1
    ensures InterframeGap(f1, t1).Ok? && InterframeGap(f2, t2).Ok?
    ensures InterframeGap(f1, t1).value <= InterframeGap(f2, t2).value
  {
    var b1 := (Layer1Size(f1) * 8) as real;
    var b2 := (Layer1Size(f2) * 8) as real;
    DivMonotone(b1 * 1000.0, b2 * 1000.0, t1);
    DivAntitone(b2 * 1000.0, t1, t2);
    InterframeGapClosed(f1, t1);
    InterframeGapClosed(f2, t2);
    CeilMonotone(b1 * 1000.0 / t1, b2 * 1000.0 / t2);
  }

  /** Length of `'a' * (frameSize - headerLen)`: a negative count gives an empty payload. */
  function PayloadLength(frameSize: int, headerLen: int): (n: nat)
    ensures frameSize >= headerLen ==> n + headerLen == frameSize
    ensures frameSize < headerLen ==> n == 0
  {
    NonNeg(frameSize - headerLen)
  }

  /** The payload `'a' * n` as ASCII bytes. */
  function PayloadBytes(n: nat): (b: seq<Hex.Byte>)
    ensures |b| == n && forall i :: 0 <= i < n ==> b[i] == 0x61
  {
    seq(n, _ => 0x61)
  }

  /**
   * The frame text: the header bytes scapy builds (opaque here) followed by the payload, each
   * byte as two hex digits.
   */
  function FrameText(headers: seq<Hex.Byte>, frameSize: int, headerLen: int): string
  {
    Hex.Encode(headers + PayloadBytes(PayloadLength(frameSize, headerLen)))
  }

  /**
   * The frame text is twice as long as the frame, reads back as headers then payload, and
   * spells every payload byte as "61".
   */
  lemma FrameTextShape(headers: seq<Hex.Byte>, frameSize: int, headerLen: int, i: nat)
    requires i < PayloadLength(frameSize, headerLen)
    ensures |FrameText(headers, frameSize, headerLen)|
         == 2 * (|headers| + PayloadLength(frameSize, headerLen))
    ensures Hex.Decode(FrameText(headers, frameSize, headerLen))
         == headers + PayloadBytes(PayloadLength(frameSize, headerLen))
    ensures FrameText(headers, frameSize, headerLen)[2 * (|headers| + i)..2 * (|headers| + i) + 2]
         == "61"
  {
    var bytes := headers + PayloadBytes(PayloadLength(frameSize, headerLen));
    Hex.EncodeRoundTrip(bytes);
    Hex.EncodeAt(bytes, |headers| + i);
    assert bytes[|headers| + i] == 0x61;
    LetterAText();
  }

  /** The byte of the letter 'a' is written "61". */
  lemma LetterAText()
    ensures Hex.Format(0x61, 2) == "61"
  {
    assert Hex.Format(0x61, 2) == Hex.Format(6, 1) + [Hex.HexDigit(1)];
  }
}
