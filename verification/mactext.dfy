/** MAC addresses as text: six two-digit lower-case hex groups separated by colons. */
module MacText {
  import opened Text
  import Hex

  function Groups(octets: seq<nat>): (r: seq<string>)
    ensures |r| == |octets|
    ensures forall i :: 0 <= i < |octets| ==> r[i] == Hex.Format(octets[i], 2)
  {
    if |octets| == 0 then [] else [Hex.Format(octets[0], 2)] + Groups(octets[1..])
  }

  /** The text of a MAC address: `"{:02x}:{:02x}:...".format(*octets)`. */
  function Mac(octets: seq<nat>): string
  {
    Join(Groups(octets), ":")
  }

  /** A textual MAC address of the usual form: six groups of exactly two hex digits. */
  predicate WellFormed(s: string)
  {
    var g := Split(s, ':');
    |g| == 6 && forall i :: 0 <= i < 6 ==> |g[i]| == 2 && Hex.AllHex(g[i])
  }

  /** The octets a well-formed MAC text spells. */
  function Octets(s: string): (r: seq<nat>)
    requires WellFormed(s)
    ensures |r| == 6
  {
    var g := Split(s, ':');
    seq(6, i requires 0 <= i < 6 => Hex.HexText(g[i]))
  }

  /** Six octets give a well-formed 17-character MAC text that reads back as those octets. */
  lemma MacRoundTrip(octets: seq<Hex.Byte>)
    requires |octets| == 6
    ensures WellFormed(Mac(octets)) && Octets(Mac(octets)) == octets
    ensures |Mac(octets)| == 17
  {
    var g := Groups(octets);
    forall i | 0 <= i < 6
      ensures |g[i]| == 2 && Hex.AllHex(g[i]) && Hex.HexText(g[i]) == octets[i] && ':' !in g[i]
    {
      Hex.FormatExact(octets[i], 2);
    }
    SplitJoin(g, ':');
    JoinUniformLength(g, ":", 2);
  }

  /** A six-octet MAC text spelled out group by group. */
  lemma MacSpelled(octets: seq<nat>)
    requires |octets| == 6
    ensures Mac(octets) == Hex.Format(octets[0], 2) + ":" + Hex.Format(octets[1], 2) + ":"
      + Hex.Format(octets[2], 2) + ":" + Hex.Format(octets[3], 2) + ":"
      + Hex.Format(octets[4], 2) + ":" + Hex.Format(octets[5], 2)
  {
    var g := Groups(octets);
    assert Join(g[5..], ":") == g[5];
    assert Join(g[4..], ":") == g[4] + ":" + Join(g[5..], ":");
    assert Join(g[3..], ":") == g[3] + ":" + Join(g[4..], ":");
    assert Join(g[2..], ":") == g[2] + ":" + Join(g[3..], ":");
    assert Join(g[1..], ":") == g[1] + ":" + Join(g[2..], ":");
    assert Join(g, ":") == g[0] + ":" + Join(g[1..], ":");
  }

  /**
   * "00:bb" followed by four random octets in two-digit hex: a six-octet MAC text that reads
   * back as 0x00, 0xbb and the random octets.
   */
  function BbMac(random: seq<Hex.Byte>): (r: string)
    requires |random| == 4
    ensures WellFormed(r) && Octets(r) == [0, 0xbb] + random && |r| == 17
  {
    MacRoundTrip([0, 0xbb] + random);
    Mac([0, 0xbb] + random)
  }
}
