/** Python string operations used by the scripts: str(int), int(str), join, split and prefixes. */
module Text {
  import opened Wrappers

  predicate IsDigit(c: char) { '0' <= c <= '9' }

  predicate AllDigits(s: string) { forall i :: 0 <= i < |s| ==> IsDigit(s[i]) }

  function DigitChar(d: nat): (c: char)
    requires d < 10
    ensures IsDigit(c) && (c as int) - ('0' as int) == d
  {
    "0123456789"[d]
  }

  /** `str(n)` for a non-negative int: decimal digits, no leading zeros. */
  function DecimalText(n: nat): (r: string)
    decreases n
  {
    if n < 10 then [DigitChar(n)] else DecimalText(n / 10) + [DigitChar(n % 10)]
  }

  /** `str(i)` for any int. */
  function IntText(i: int): string
  {
    if i < 0 then "-" + DecimalText(-i) else DecimalText(i)
  }

  /** The value of a run of decimal digits, most significant first. */
  function DigitsValue(s: string): nat
    requires AllDigits(s)
  {
    if |s| == 0 then 0
    else DigitsValue(s[..|s| - 1]) * 10 + ((s[|s| - 1] as int) - ('0' as int))
  }

  /**
   * `int(s)` on a text made of decimal digits only; anything else (including the empty
   * text) raises ValueError.
   */
  function ParseInt(s: string): Result<nat>
  {
    if |s| > 0 && AllDigits(s) then Ok(DigitsValue(s)) else Err(ValueError)
  }

  lemma {:induction false} DecimalTextDigits(n: nat)
    ensures |DecimalText(n)| > 0 && AllDigits(DecimalText(n))
    ensures DigitsValue(DecimalText(n)) == n
    decreases n
  {
    if n >= 10 {
      DecimalTextDigits(n / 10);
      var s := DecimalText(n);
      assert s[..|s| - 1] == DecimalText(n / 10);
    }
  }

  /** int(str(n)) == n. */
  lemma DecimalRoundTrip(n: nat)
    ensures ParseInt(DecimalText(n)) == Ok(n)
  {
    DecimalTextDigits(n);
  }

  /** `sep.join(parts)`. */
  function Join(parts: seq<string>, sep: string): string
  {
    if |parts| == 0 then ""
    else if |parts| == 1 then parts[0]
    else parts[0] + sep + Join(parts[1..], sep)
  }

  /** Joining n fields of width w with a separator takes n*w + (n-1)*|sep| characters. */
  lemma {:induction false} JoinUniformLength(parts: seq<string>, sep: string, w: nat)
    requires |parts| >= 1
    requires forall i :: 0 <= i < |parts| ==> |parts[i]| == w
    ensures |Join(parts, sep)| == |parts| * w + (|parts| - 1) * |sep|
    decreases |parts|
  {
    if |parts| > 1 {
      JoinUniformLength(parts[1..], sep, w);
    }
  }

  /** `s.split(c)` for a one-character separator: never empty. */
  function Split(s: string, c: char): (r: seq<string>)
    ensures |r| >= 1
    decreases |s|
  {
    if |s| == 0 then [""]
    else
      var rest := Split(s[1..], c);
      if s[0] == c then [""] + rest else [[s[0]] + rest[0]] + rest[1..]
  }

  lemma {:induction false} SplitWithout(p: string, c: char)
    requires c !in p
    ensures Split(p, c) == [p]
    decreases |p|
  {
    if |p| > 0 {
      SplitWithout(p[1..], c);
      assert [p[0]] + p[1..] == p;
    }
  }

  lemma {:induction false} SplitAfterField(p: string, rest: string, c: char)
    requires c !in p
    ensures Split(p + [c] + rest, c) == [p] + Split(rest, c)
    decreases |p|
  {
    var s := p + [c] + rest;
    if |p| == 0 {
      assert s[1..] == rest;
    } else {
      assert s[1..] == p[1..] + [c] + rest;
      SplitAfterField(p[1..], rest, c);
      assert [p[0]] + p[1..] == p;
    }
  }

  /** Splitting a join on the same one-character separator gives the fields back. */
  lemma {:induction false} SplitJoin(parts: seq<string>, c: char)
    requires |parts| >= 1
    requires forall i :: 0 <= i < |parts| ==> c !in parts[i]
    ensures Split(Join(parts, [c]), c) == parts
    decreases |parts|
  {
    if |parts| == 1 {
      SplitWithout(parts[0], c);
    } else {
      SplitAfterField(parts[0], Join(parts[1..], [c]), c);
      SplitJoin(parts[1..], c);
      assert [parts[0]] + parts[1..] == parts;
    }
  }

  /** Joining the fields of a split restores the text. */
  lemma {:induction false} JoinSplit(s: string, c: char)
    ensures Join(Split(s, c), [c]) == s
    decreases |s|
  {
    if |s| > 0 {
      JoinSplit(s[1..], c);
      var rest := Split(s[1..], c);
      if s[0] != c && |rest| >= 2 {
        assert Join(rest, [c]) == rest[0] + [c] + Join(rest[1..], [c]);
      }
    }
  }

  /** Number of occurrences of `c` in `s`. */
  function Count(s: string, c: char): nat
  {
    if |s| == 0 then 0 else (if s[0] == c then 1 else 0) + Count(s[1..], c)
  }

  lemma {:induction false} CountAppend(a: string, b: string, c: char)
    ensures Count(a + b, c) == Count(a, c) + Count(b, c)
    decreases |a|
  {
    if |a| == 0 {
      assert a + b == b;
    } else {
      assert (a + b)[1..] == a[1..] + b;
      CountAppend(a[1..], b, c);
    }
  }

  lemma {:induction false} CountWithout(s: string, c: char)
    requires c !in s
    ensures Count(s, c) == 0
    decreases |s|
  {
    if |s| > 0 {
      CountWithout(s[1..], c);
    }
  }

  /**
   * When no field contains `c` and the separator holds it once, the joined text holds
   * exactly one `c` fewer than there are fields.
   */
  lemma {:induction false} JoinCount(parts: seq<string>, sep: string, c: char)
    requires |parts| >= 1 && Count(sep, c) == 1
    requires forall i :: 0 <= i < |parts| ==> c !in parts[i]
    ensures Count(Join(parts, sep), c) == |parts| - 1
    decreases |parts|
  {
    CountWithout(parts[0], c);
    if |parts| > 1 {
      JoinCount(parts[1..], sep, c);
      CountAppend(parts[0], sep, c);
      CountAppend(parts[0] + sep, Join(parts[1..], sep), c);
    }
  }

  /** `s.split(c)[0]`: the text before the first `c`, or all of `s`. */
  function BeforeFirst(s: string, c: char): (r: string)
    ensures c !in r
    ensures |r| <= |s| && r == s[..|r|]
    ensures c in s ==> |r| < |s| && s[|r|] == c
    ensures c !in s ==> r == s
    decreases |s|
  {
    if |s| == 0 || s[0] == c then "" else [s[0]] + BeforeFirst(s[1..], c)
  }

  lemma {:induction false} BeforeFirstIsFirstField(s: string, c: char)
    ensures BeforeFirst(s, c) == Split(s, c)[0]
    decreases |s|
  {
    if |s| > 0 && s[0] != c {
      BeforeFirstIsFirstField(s[1..], c);
    }
  }

  /** `s.startswith(p)`. */
  predicate StartsWith(s: string, p: string)
  {
    |p| <= |s| && s[..|p|] == p
  }

  /** A text wrapped in double quotes, as the CSV writers do. */
  function Quote(s: string): (r: string)
    ensures |r| == |s| + 2 && r[0] == '"' && r[|r| - 1] == '"' && r[1..|r| - 1] == s
  {
    "\"" + s + "\""
  }
}
