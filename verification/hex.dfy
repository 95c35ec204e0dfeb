/**
 * Python's lower-case hexadecimal formatting: `format(n, "0Wx")`, `"{:02x}".format(n)`,
 * `"%2x" % n`, and the frame-to-hex-text encoding `''.join(format(b, "02x") for b in ...)`.
 */
module Hex {
  type Byte = x: int | 0 <= x < 256

  function HexDigit(d: nat): (c: char)
    requires d < 16
  {
    if d < 10 then ('0' as int + d) as char else ('a' as int + d - 10) as char
  }

  /** A lower-case hexadecimal digit, as Python's `x` format emits. */
  predicate IsHexDigit(c: char) { '0' <= c <= '9' || 'a' <= c <= 'f' }

  predicate AllHex(s: string) { forall i :: 0 <= i < |s| ==> IsHexDigit(s[i]) }

  function HexValue(c: char): (d: nat)
    requires IsHexDigit(c)
    ensures d < 16 && HexDigit(d) == c
  {
    if c <= '9' then (c as int) - ('0' as int) else (c as int) - ('a' as int) + 10
  }

  function Pow16(w: nat): (p: nat)
    ensures p >= 1
  {
    if w == 0 then 1 else 16 * Pow16(w - 1)
  }

  /**
   * `format(n, "0{width}x")`: the lower-case hex digits of n, zero-padded on the left to at
   * least `width` characters and never truncated.
   */
  function Format(n: nat, width: nat): string
    decreases n + width
  {
    if n < 16 && width <= 1 then [HexDigit(n)]
    else Format(n / 16, if width == 0 then 0 else width - 1) + [HexDigit(n % 16)]
  }

  /** The value of a text of hex digits, most significant first. */
  function HexText(s: string): nat
    requires AllHex(s)
  {
    if |s| == 0 then 0 else HexText(s[..|s| - 1]) * 16 + HexValue(s[|s| - 1])
  }

  /**
   * Zero-padded formatting is exact: a value below 16^width takes exactly `width` hex digits
   * (at least one) and they read back as the value.
   */
  lemma {:induction false} FormatExact(n: nat, width: nat)
    requires n < Pow16(width)
    ensures |Format(n, width)| == (if width == 0 then 1 else width)
    ensures AllHex(Format(n, width)) && HexText(Format(n, width)) == n
    decreases n + width
  {
    var s := Format(n, width);
    if !(n < 16 && width <= 1) {
      var w' := if width == 0 then 0 else width - 1;
      assert width >= 1;
      assert n / 16 < Pow16(w');
      FormatExact(n / 16, w');
      assert s[..|s| - 1] == Format(n / 16, w');
    } else {
      assert s[..|s| - 1] == [];
    }
  }

  /** A byte formatted with `02x` is its high nibble digit then its low nibble digit. */
  lemma Format2(n: nat)
    requires n < 256
    ensures Format(n, 2) == [HexDigit(n / 16), HexDigit(n % 16)]
  {
    assert Format(n, 2) == Format(n / 16, 1) + [HexDigit(n % 16)];
    assert Format(n / 16, 1) == [HexDigit(n / 16)];
  }

  /**
   * A 16-bit group formatted with `04x` is the `02x` text of its high byte followed by the
   * `02x` text of its low byte.
   */
  lemma Format4Split(g: nat)
    requires g < 0x1_0000
    ensures |Format(g, 4)| == 4
    ensures Format(g, 4)[..2] == Format(g / 256, 2) && Format(g, 4)[2..] == Format(g % 256, 2)
  {
    FormatExact(g, 4);
    assert (g / 16) / 16 == g / 256;
    assert (g / 16) % 16 == (g % 256) / 16;
    assert (g % 256) % 16 == g % 16;
    var hi := Format(g / 256, 2);
    assert Format(g / 16, 3) == hi + [HexDigit((g / 16) % 16)];
    assert Format(g, 4) == hi + [HexDigit((g / 16) % 16)] + [HexDigit(g % 16)];
    FormatExact(g / 256, 2);
    Format2(g % 256);
  }

  /** Every formatted number reads back as itself, whatever the padding. */
  lemma {:induction false} FormatRoundTrip(n: nat, width: nat)
    ensures AllHex(Format(n, width)) && HexText(Format(n, width)) == n
    decreases n + width
  {
    var s := Format(n, width);
    if !(n < 16 && width <= 1) {
      FormatRoundTrip(n / 16, if width == 0 then 0 else width - 1);
      assert s[..|s| - 1] == Format(n / 16, if width == 0 then 0 else width - 1);
    } else {
      assert s[..|s| - 1] == [];
    }
  }

  /** `"%2x" % n`: like `02x`, but padded with a space instead of a zero. */
  function SpacePadded2(n: nat): string
  {
    if n < 16 then [' ', HexDigit(n)] else Format(n, 2)
  }

  /** Two hex digits per byte, in order: the frame text handed to `BytesSet`/`PayloadSet`. */
  function Encode(bytes: seq<Byte>): (r: string)
    ensures |r| == 2 * |bytes|
    ensures AllHex(r)
  {
    if |bytes| == 0 then ""
    else
      FormatExact(bytes[0], 2);
      Format(bytes[0], 2) + Encode(bytes[1..])
  }

  /** The inverse of Encode: each pair of hex digits becomes one byte. */
  function Decode(s: string): seq<nat>
    requires |s| % 2 == 0 && AllHex(s)
  {
    if |s| == 0 then [] else [HexText(s[..2])] + Decode(s[2..])
  }

  lemma {:induction false} EncodeRoundTrip(bytes: seq<Byte>)
    ensures Decode(Encode(bytes)) == bytes
    decreases |bytes|
  {
    if |bytes| > 0 {
      var r := Encode(bytes);
      FormatExact(bytes[0], 2);
      assert r[..2] == Format(bytes[0], 2);
      assert r[2..] == Encode(bytes[1..]);
      EncodeRoundTrip(bytes[1..]);
      assert [bytes[0]] + bytes[1..] == bytes;
    }
  }

  /** Characters 2i and 2i+1 of the text are the two digits of byte i. */
  lemma {:induction false} EncodeAt(bytes: seq<Byte>, i: nat)
    requires i < |bytes|
    ensures Encode(bytes)[2 * i..2 * i + 2] == Format(bytes[i], 2)
    decreases i
  {
    FormatExact(bytes[0], 2);
    if i > 0 {
      EncodeAt(bytes[1..], i - 1);
      var r := Encode(bytes);
      assert r[2..] == Encode(bytes[1..]);
      assert r[2 * i..2 * i + 2] == r[2..][2 * (i - 1)..2 * (i - 1) + 2];
    }
  }
}
