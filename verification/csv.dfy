/**
 * The `write_csv` helpers of demo_scripts/throughput_rssi_ssid_bssid_tcp.py and
 * demo_scripts/throughput_rssi_ssid_bssid_udp.py: result dictionaries become a quoted header
 * line and one line per result. The file itself is the list of lines returned.
 */
module Csv {
  import opened Wrappers
  import opened Text
  import opened PyMath

  /** A value stored in a result dictionary. */
  datatype Value = Str(s: string) | Int(i: int) | Real(x: real)

  /** A result dictionary: its keys in insertion order, each with its value. */
  type Record = seq<(string, Value)>

  /** The keys of a dictionary, in insertion order (`list(d.keys())`). */
  function Keys(record: Record): (keys: seq<string>)
    ensures |keys| == |record|
    ensures forall i :: 0 <= i < |record| ==> keys[i] == record[i].0
  {
    if record == [] then [] else Keys(record[..|record| - 1]) + [record[|record| - 1].0]
  }

  /** `d[key]`: the value under the first entry with that key, or KeyError. */
  function Lookup(record: Record, key: string): (r: Result<Value>)
    ensures r.Err? <==> key !in Keys(record)
    ensures r.Err? ==> r.error == KeyError
    ensures r.Ok? ==> exists i :: 0 <= i < |record| && record[i] == (key, r.value)
  {
    if record == [] then Err(KeyError)
    else if record[0].0 == key then Ok(record[0].1)
    else
      var rest := Lookup(record[1..], key);
      assert Keys(record) == [record[0].0] + Keys(record[1..]);
      if rest.Ok? then
        var i :| 0 <= i < |record[1..]| && record[1..][i] == (key, rest.value);
        assert record[i + 1] == (key, rest.value);
        rest
      else rest
  }

  /** `keys.remove(key)`: drop the first occurrence. */
  function Remove(keys: seq<string>, key: string): (r: seq<string>)
    requires key in keys
    ensures |r| == |keys| - 1
    ensures forall j :: 0 <= j < |r| ==> r[j] == (if j < IndexOf(keys, key) then keys[j] else keys[j + 1])
  {
    var i := IndexOf(keys, key);
    keys[..i] + keys[i + 1..]
  }

  /** Removing a key loses exactly one occurrence of it and nothing else. */
  lemma RemovePermutes(keys: seq<string>, key: string)
    requires key in keys
    ensures multiset(Remove(keys, key)) + multiset{key} == multiset(keys)
  {
    var i := IndexOf(keys, key);
    assert keys == keys[..i] + [keys[i]] + keys[i + 1..];
  }

  /** The position of the first occurrence of a key. */
  function IndexOf(keys: seq<string>, key: string): (i: nat)
    requires key in keys
    ensures i < |keys| && keys[i] == key
    ensures forall j :: 0 <= j < i ==> keys[j] != key
  {
    if keys[0] == key then 0 else 1 + IndexOf(keys[1..], key)
  }

  /**
   * The column order of the tcp demo's `write_csv`: `first_key`, then the other keys of the
   * first result in their own order. A first key that is not a key raises ValueError.
   */
  function ColumnOrder(first: Record, firstKey: string): (r: Result<seq<string>>)
    ensures r.Err? <==> firstKey !in Keys(first)
    ensures r.Err? ==> r.error == ValueError
    ensures r.Ok? ==> |r.value| == |first| && r.value[0] == firstKey
    ensures r.Ok? ==> r.value[1..] == Remove(Keys(first), firstKey)
  {
    var keys := Keys(first);
    if firstKey in keys then Ok([firstKey] + Remove(keys, firstKey))
    else Err(ValueError)
  }

  /** The columns are the keys of the first result, reordered: each as often as it occurs. */
  lemma ColumnOrderPermutes(first: Record, firstKey: string)
    requires firstKey in Keys(first)
    ensures multiset(ColumnOrder(first, firstKey).value) == multiset(Keys(first))
  {
    var rest := Remove(Keys(first), firstKey);
    RemovePermutes(Keys(first), firstKey);
    assert multiset([firstKey] + rest) == multiset{firstKey} + multiset(rest);
  }

  /** A first key that already is the first column leaves the column order unchanged. */
  lemma ColumnOrderKeepsLeadingKey(first: Record, firstKey: string)
    requires |first| > 0 && first[0].0 == firstKey
    ensures ColumnOrder(first, firstKey) == Ok(Keys(first))
  {
    var keys := Keys(first);
    assert keys[0] == firstKey;
    RemoveLeading(keys, firstKey);
    assert ColumnOrder(first, firstKey).value == [firstKey] + keys[1..];
    assert [keys[0]] + keys[1..] == keys;
  }

  /** Removing the key that comes first drops the first element. */
  lemma RemoveLeading(keys: seq<string>, key: string)
    requires |keys| > 0 && keys[0] == key
    ensures Remove(keys, key) == keys[1..]
  {
    assert IndexOf(keys, key) == 0;
    assert keys[..0] + keys[1..] == keys[1..];
  }

  /** The header line: each key in double quotes, joined by the separator, then a newline. */
  function Header(keys: seq<string>, separator: string): (line: string)
    ensures |line| > 0 && line[|line| - 1] == '\n'
  {
    Join(Quoted(keys), separator) + "\n"
  }

  /** Every key wrapped in double quotes. */
  function Quoted(keys: seq<string>): (r: seq<string>)
    ensures |r| == |keys|
    ensures forall i :: 0 <= i < |keys| ==> r[i] == Quote(keys[i])
  {
    if keys == [] then [] else Quoted(keys[..|keys| - 1]) + [Quote(keys[|keys| - 1])]
  }

  /**
   * Reading the header back: with a one-character separator that occurs in no key, splitting
   * the header (newline removed) gives the quoted keys.
   */
  lemma HeaderFields(keys: seq<string>, c: char)
    requires |keys| >= 1 && c != '"'
    requires forall i :: 0 <= i < |keys| ==> c !in keys[i]
    ensures var h := Header(keys, [c]); Split(h[..|h| - 1], c) == Quoted(keys)
  {
    var q := Quoted(keys);
    forall i | 0 <= i < |q| ensures c !in q[i] {
      assert q[i] == "\"" + keys[i] + "\"";
    }
    SplitJoin(q, c);
    var h := Header(keys, [c]);
    assert h[..|h| - 1] == Join(q, [c]);
  }

  /** `int(item)` on a timestamp value. */
  function IntValue(v: Value): (r: Result<int>)
    ensures v.Int? ==> r == Ok(v.i)
    ensures v.Real? ==> r == Ok(Trunc(v.x))
  {
    match v
    case Int(i) => Ok(i)
    case Real(x) => Ok(Trunc(x))
    case Str(s) => match ParseInt(s) { case Ok(n) => Ok(n) case Err(e) => Err(e) }
  }

  /**
   * The text of one cell: the timestamp becomes a date text first, then a string is quoted and
   * any other value is `str()`-ed. Date formatting and `str(float)` are parameters.
   */
  function Cell(record: Record, key: string, dateText: int -> string, realText: real -> string): (r: Result<string>)
    ensures Lookup(record, key).Err? ==> r == Err(KeyError)
    ensures key == "timestamp" && Lookup(record, key).Ok? && IntValue(Lookup(record, key).value).Ok? ==>
      r == Ok(Quote(dateText(IntValue(Lookup(record, key).value).value)))
    ensures key != "timestamp" && Lookup(record, key).Ok? && Lookup(record, key).value.Str? ==>
      r == Ok(Quote(Lookup(record, key).value.s))
  {
    match Lookup(record, key)
    case Err(e) => Err(e)
    case Ok(item) =>
      var converted: Result<Value> :=
        if key == "timestamp" then
          match IntValue(item) { case Ok(t) => Ok(Str(dateText(t))) case Err(e) => Err(e) }
        else Ok(item);
      match converted
      case Err(e) => Err(e)
      case Ok(Str(s)) => Ok(Quote(s))
      case Ok(Int(i)) => Ok(IntText(i))
      case Ok(Real(x)) => Ok(realText(x))
  }

  /** The cells of one result in column order; the first failing cell decides the error. */
  function Cells(record: Record, keys: seq<string>, dateText: int -> string, realText: real -> string)
    : Result<seq<string>>
  {
    if keys == [] then Ok([])
    else
      var before := Cells(record, keys[..|keys| - 1], dateText, realText);
      var last := Cell(record, keys[|keys| - 1], dateText, realText);
      if before.Err? then before
      else if last.Err? then Err(last.error)
      else Ok(before.value + [last.value])
  }

  /**
   * The cells can be written iff every column's cell can; then cell i is column i's text,
   * and otherwise the error is the error of some column.
   */
  lemma {:induction false} CellsMeaning(record: Record, keys: seq<string>, dateText: int -> string, realText: real -> string)
    ensures var r := Cells(record, keys, dateText, realText);
      r.Ok? <==> forall i :: 0 <= i < |keys| ==> Cell(record, keys[i], dateText, realText).Ok?
    ensures var r := Cells(record, keys, dateText, realText);
      r.Ok? ==> (|r.value| == |keys| &&
        forall i :: 0 <= i < |keys| ==> r.value[i] == Cell(record, keys[i], dateText, realText).value)
    ensures var r := Cells(record, keys, dateText, realText);
      r.Err? ==> exists i :: 0 <= i < |keys| && Cell(record, keys[i], dateText, realText) == Err(r.error)
    decreases |keys|
  {
    if keys != [] {
      var init := keys[..|keys| - 1];
      CellsMeaning(record, init, dateText, realText);
      assert forall i :: 0 <= i < |init| ==> keys[i] == init[i];
      var before := Cells(record, init, dateText, realText);
      if before.Err? {
        var i :| 0 <= i < |init| && Cell(record, init[i], dateText, realText) == Err(before.error);
        assert Cell(record, keys[i], dateText, realText) == Err(before.error);
      } else {
        var last := Cell(record, keys[|keys| - 1], dateText, realText);
        if last.Ok? {
          var r := before.value + [last.value];
          assert forall i :: 0 <= i < |init| ==> r[i] == before.value[i];
        }
      }
    }
  }

  /** Every cell of the result can be written. */
  predicate RowOk(record: Record, keys: seq<string>, dateText: int -> string, realText: real -> string)
  {
    Cells(record, keys, dateText, realText).Ok?
  }

  /** The line of a result: its cells joined by the separator, then a newline. */
  function RowText(record: Record, keys: seq<string>, separator: string,
                   dateText: int -> string, realText: real -> string): string
    requires RowOk(record, keys, dateText, realText)
  {
    Join(Cells(record, keys, dateText, realText).value, separator) + "\n"
  }

  /** The lines of the results, one per result in input order; the first failing result decides the error. */
  function Lines(results: seq<Record>, keys: seq<string>, separator: string,
                 dateText: int -> string, realText: real -> string): Result<seq<string>>
  {
    if results == [] then Ok([])
    else
      var before := Lines(results[..|results| - 1], keys, separator, dateText, realText);
      var last := results[|results| - 1];
      if before.Err? then before
      else if !RowOk(last, keys, dateText, realText) then Err(Cells(last, keys, dateText, realText).error)
      else Ok(before.value + [RowText(last, keys, separator, dateText, realText)])
  }

  /** Every result's row can be written. */
  predicate AllRowsOk(results: seq<Record>, keys: seq<string>, dateText: int -> string, realText: real -> string)
  {
    forall k :: 0 <= k < |results| ==> RowOk(results[k], keys, dateText, realText)
  }

  /** The lines can be written iff every result's row can. */
  lemma {:induction false} LinesOkIffRowsOk(results: seq<Record>, keys: seq<string>, separator: string,
                                            dateText: int -> string, realText: real -> string)
    ensures Lines(results, keys, separator, dateText, realText).Ok? <==> AllRowsOk(results, keys, dateText, realText)
    decreases |results|
  {
    if results != [] {
      var init := results[..|results| - 1];
      var last := results[|results| - 1];
      LinesOkIffRowsOk(init, keys, separator, dateText, realText);
      assert forall k :: 0 <= k < |init| ==> results[k] == init[k];
      assert AllRowsOk(results, keys, dateText, realText) <==>
        AllRowsOk(init, keys, dateText, realText) && RowOk(last, keys, dateText, realText);
    }
  }

  /** Written lines are the row texts of the results, one per result, in order. */
  lemma {:induction false} LinesAreRowTexts(results: seq<Record>, keys: seq<string>, separator: string,
                                            dateText: int -> string, realText: real -> string)
    requires Lines(results, keys, separator, dateText, realText).Ok?
    ensures var lines := Lines(results, keys, separator, dateText, realText).value;
      |lines| == |results| && forall k :: 0 <= k < |results| ==>
        RowOk(results[k], keys, dateText, realText) &&
        lines[k] == RowText(results[k], keys, separator, dateText, realText)
    decreases |results|
  {
    if results != [] {
      var init := results[..|results| - 1];
      var last := results[|results| - 1];
      LinesAreRowTexts(init, keys, separator, dateText, realText);
      var before := Lines(init, keys, separator, dateText, realText).value;
      var lines := Lines(results, keys, separator, dateText, realText).value;
      assert RowOk(last, keys, dateText, realText);
      assert lines == before + [RowText(last, keys, separator, dateText, realText)];
      forall k | 0 <= k < |results|
        ensures RowOk(results[k], keys, dateText, realText) &&
          lines[k] == RowText(results[k], keys, separator, dateText, realText)
      {
        if k < |init| {
          assert results[k] == init[k] && lines[k] == before[k];
        }
      }
    }
  }

  /** One result line: its cells, built by appending in column order. */
  method Line(record: Record, keys: seq<string>, separator: string,
              dateText: int -> string, realText: real -> string) returns (r: Result<string>)
    ensures r.Ok? <==> RowOk(record, keys, dateText, realText)
    ensures r.Ok? ==> r.value == RowText(record, keys, separator, dateText, realText)
    ensures r.Err? ==> r.error == Cells(record, keys, dateText, realText).error
  {
    var items: seq<string> := [];
    for i := 0 to |keys|
      invariant Cells(record, keys[..i], dateText, realText) == Ok(items)
    {
      assert keys[..i + 1][..i] == keys[..i];
      var item := Cell(record, keys[i], dateText, realText);
      if item.Err? {
        assert Cells(record, keys[..i + 1], dateText, realText) == Err(item.error);
        CellsPrefixError(record, keys, i + 1, dateText, realText);
        return Err(item.error);
      }
      items := items + [item.value];
    }
    assert keys[..|keys|] == keys;
    r := Ok(Join(items, separator) + "\n");
  }

  /**
   * A row can be written when every column is one of its keys and its timestamp, if it has
   * one, is a number.
   */
  lemma RowOkWhenKeysPresent(record: Record, keys: seq<string>, dateText: int -> string, realText: real -> string)
    requires forall i :: 0 <= i < |keys| ==> keys[i] in Keys(record)
    requires "timestamp" in Keys(record) ==> !Lookup(record, "timestamp").value.Str?
    ensures RowOk(record, keys, dateText, realText)
  {
    forall i | 0 <= i < |keys| ensures Cell(record, keys[i], dateText, realText).Ok? {
      assert Lookup(record, keys[i]).Ok?;
    }
    CellsMeaning(record, keys, dateText, realText);
  }

  /** Once a prefix of the columns fails, the whole row fails with the same error. */
  lemma {:induction false} CellsPrefixError(record: Record, keys: seq<string>, n: nat,
                                            dateText: int -> string, realText: real -> string)
    requires n <= |keys| && Cells(record, keys[..n], dateText, realText).Err?
    ensures Cells(record, keys, dateText, realText) == Cells(record, keys[..n], dateText, realText)
    decreases |keys| - n
  {
    if n < |keys| {
      assert keys[..n + 1][..n] == keys[..n];
      CellsPrefixError(record, keys, n + 1, dateText, realText);
    } else {
      assert keys[..n] == keys;
    }
  }

  /** Once a prefix of the results fails, the whole file fails with the same error. */
  lemma {:induction false} LinesPrefixError(results: seq<Record>, keys: seq<string>, separator: string, n: nat,
                                            dateText: int -> string, realText: real -> string)
    requires n <= |results| && Lines(results[..n], keys, separator, dateText, realText).Err?
    ensures Lines(results, keys, separator, dateText, realText) == Lines(results[..n], keys, separator, dateText, realText)
    decreases |results| - n
  {
    if n < |results| {
      assert results[..n + 1][..n] == results[..n];
      LinesPrefixError(results, keys, separator, n + 1, dateText, realText);
    } else {
      assert results[..n] == results;
    }
  }

  /** The writing stops at result k: every earlier line was written and result k's row fails. */
  predicate StoppedAt(results: seq<Record>, keys: seq<string>, separator: string,
                      dateText: int -> string, realText: real -> string, k: int)
  {
    0 <= k < |results| && Lines(results[..k], keys, separator, dateText, realText).Ok?
    && !RowOk(results[k], keys, dateText, realText)
  }

  /** The writing stops exactly at the first result whose row fails. */
  lemma StoppedAtFirstFailure(results: seq<Record>, keys: seq<string>, separator: string,
                              dateText: int -> string, realText: real -> string, k: int)
    ensures StoppedAt(results, keys, separator, dateText, realText, k) <==>
      0 <= k < |results| && !RowOk(results[k], keys, dateText, realText)
      && forall j :: 0 <= j < k ==> RowOk(results[j], keys, dateText, realText)
  {
    if 0 <= k < |results| {
      LinesOkIffRowsOk(results[..k], keys, separator, dateText, realText);
      assert forall j :: 0 <= j < k ==> results[..k][j] == results[j];
    }
  }

  /**
   * The udp demo's `write_csv`: the header of the given keys, then one line per result, in
   * order; a missing key or an unreadable timestamp stops the writing. `written` is what the
   * file holds afterwards: on an error, the header and the lines before the failing result.
   */
  method WriteCsv(results: seq<Record>, keys: seq<string>, separator: string,
                  dateText: int -> string, realText: real -> string)
    returns (r: Result<seq<string>>, written: seq<string>)
    ensures r.Ok? <==> Lines(results, keys, separator, dateText, realText).Ok?
    ensures r.Ok? ==> r.value == [Header(keys, separator)] + Lines(results, keys, separator, dateText, realText).value
    ensures r.Err? ==> r.error == Lines(results, keys, separator, dateText, realText).error
    ensures r.Ok? ==> written == r.value
    ensures r.Err? ==>
      (exists k :: StoppedAt(results, keys, separator, dateText, realText, k) &&
        written == [Header(keys, separator)] + Lines(results[..k], keys, separator, dateText, realText).value &&
        r.error == Cells(results[k], keys, dateText, realText).error)
  {
    var file := [Header(keys, separator)];
    for k := 0 to |results|
      invariant Lines(results[..k], keys, separator, dateText, realText).Ok?
      invariant file == [Header(keys, separator)] + Lines(results[..k], keys, separator, dateText, realText).value
    {
      assert results[..k + 1][..k] == results[..k];
      var line := Line(results[k], keys, separator, dateText, realText);
      if line.Err? {
        assert Lines(results[..k + 1], keys, separator, dateText, realText).Err?;
        LinesPrefixError(results, keys, separator, k + 1, dateText, realText);
        assert StoppedAt(results, keys, separator, dateText, realText, k);
        return Err(line.error), file;
      }
      file := file + [line.value];
    }
    assert results[..|results|] == results;
    r, written := Ok(file), file;
  }

  /**
   * The tcp demo's `write_csv`: the columns come from the first result with `first_key` moved
   * to the front; an empty result list raises IndexError.
   */
  method WriteCsvFirstKey(results: seq<Record>, firstKey: string, separator: string,
                          dateText: int -> string, realText: real -> string)
    returns (r: Result<seq<string>>, written: seq<string>)
    ensures results == [] ==> r == Err(IndexError) && written == []
    ensures results != [] && ColumnOrder(results[0], firstKey).Err? ==> r == Err(ValueError) && written == []
    ensures results != [] && ColumnOrder(results[0], firstKey).Ok? ==>
      var keys := ColumnOrder(results[0], firstKey).value;
      (r.Ok? <==> Lines(results, keys, separator, dateText, realText).Ok?) &&
      (r.Ok? ==> r.value == [Header(keys, separator)] + Lines(results, keys, separator, dateText, realText).value) &&
      (r.Ok? ==> written == r.value) &&
      (r.Err? ==>
        (exists k :: StoppedAt(results, keys, separator, dateText, realText, k) &&
          written == [Header(keys, separator)] + Lines(results[..k], keys, separator, dateText, realText).value &&
          r.error == Cells(results[k], keys, dateText, realText).error))
  {
    if results == [] {
      return Err(IndexError), [];
    }
    var keys := Keys(results[0]);
    if firstKey !in keys {
      return Err(ValueError), [];
    }
    keys := Remove(keys, firstKey);
    keys := [firstKey] + keys;
    r, written := WriteCsv(results, keys, separator, dateText, realText);
  }
}
