/**
 * demo_scripts/influence_of_network_monitor_on_tcp_throughput.py: the same HTTP test run
 * without and with a network-info monitor; the throughput of both runs is plotted on one
 * scale. The rows of the monitored run are those of the tcp throughput/RSSI demo
 * (ThroughputRssiTcp); the run without a monitor keeps only a timestamp and a throughput.
 */
module InfluenceMonitor {
  import opened Wrappers
  import opened PyMath
  import opened Csv

  /** One interval of the HTTP session's history: its timestamp and its average bit rate. */
  datatype HttpInterval = HttpInterval(timestamp: int, rateBps: real)

  /** Samples per second of the network-info monitor and the HTTP history. */
  const SAMPLE_RESOLUTION := 1

  /** `int(1e9 / sample_resolution)`: the sampling interval in nanoseconds. */
  function SampleDurationNs(): (d: int)
    ensures d * SAMPLE_RESOLUTION == 1000000000
  {
    Trunc(1000000000.0 / SAMPLE_RESOLUTION as real)
  }

  /**
   * The throughput of a result in whole Mbit/s, `int(result['throughput'] / 1e6)`; none when
   * the result has no throughput, TypeError when it is a string.
   */
  function ThroughputMbps(record: Record): (r: Result<Option<int>>)
    ensures r == Ok(None) <==> "throughput" !in Keys(record)
    ensures r.Err? ==> r.error == TypeError
  {
    match Lookup(record, "throughput")
    case Err(_) => Ok(None)
    case Ok(Int(i)) => Ok(Some(Trunc(i as real / 1000000.0)))
    case Ok(Real(x)) => Ok(Some(Trunc(x / 1000000.0)))
    case Ok(Str(_)) => Err(TypeError)
  }

  /** One step of the running maximum: a failed result fails it, a missing throughput keeps it. */
  function MaxStep(acc: Result<int>, record: Record): Result<int>
  {
    match acc
    case Err(e) => Err(e)
    case Ok(m) =>
      match ThroughputMbps(record)
      case Err(e) => Err(e)
      case Ok(None) => Ok(m)
      case Ok(Some(t)) => Ok(if t > m then t else m)
  }

  /** The running maximum over the results, from 0. */
  function MaxMbps(records: seq<Record>): (r: Result<int>)
  {
    if records == [] then Ok(0)
    else MaxStep(MaxMbps(records[..|records| - 1]), records[|records| - 1])
  }

  /** The maximum over one more result is one more step. */
  lemma MaxMbpsAppend(records: seq<Record>, record: Record)
    ensures MaxMbps(records + [record]) == MaxStep(MaxMbps(records), record)
  {
    assert (records + [record])[..|records|] == records;
  }

  /**
   * The maximum is at least 0 and at least every result's throughput, and it is 0 or the
   * throughput of some result; results without a throughput do not count.
   */
  lemma {:induction false} MaxMbpsIsMaximum(records: seq<Record>)
    requires MaxMbps(records).Ok?
    ensures MaxMbps(records).value >= 0
    ensures forall k :: 0 <= k < |records| ==> (ThroughputMbps(records[k]).Ok? &&
      (ThroughputMbps(records[k]).value.Some? ==> ThroughputMbps(records[k]).value.value <= MaxMbps(records).value))
    ensures MaxMbps(records).value == 0 ||
      exists k :: 0 <= k < |records| && ThroughputMbps(records[k]) == Ok(Some(MaxMbps(records).value))
    decreases |records|
  {
    if records != [] {
      var init := records[..|records| - 1];
      MaxMbpsIsMaximum(init);
      assert forall k :: 0 <= k < |init| ==> records[k] == init[k];
      var m := MaxMbps(init).value;
      if m != 0 && MaxMbps(records).value == m {
        var k :| 0 <= k < |init| && ThroughputMbps(init[k]) == Ok(Some(m));
        assert records[k] == init[k];
      }
    }
  }

  /** Without any throughput among the results the maximum is 0. */
  lemma NoThroughputGivesZero(records: seq<Record>)
    requires forall k :: 0 <= k < |records| ==> "throughput" !in Keys(records[k])
    ensures MaxMbps(records) == Ok(0)
  {
    if records != [] {
      NoThroughputGivesZero(records[..|records| - 1]);
    }
  }

  /** A failing prefix makes the whole maximum fail the same way. */
  lemma {:induction false} MaxMbpsPrefixError(a: seq<Record>, b: seq<Record>)
    requires MaxMbps(a).Err?
    ensures MaxMbps(a + b) == MaxMbps(a)
    decreases |b|
  {
    if b == [] {
      assert a + b == a;
    } else {
      var init := b[..|b| - 1];
      MaxMbpsPrefixError(a, init);
      assert (a + b)[..|a + b| - 1] == a + init;
    }
  }

  /** All the results of all the result sets, set by set. */
  function Flatten(resultSets: seq<seq<Record>>): (r: seq<Record>)
  {
    if resultSets == [] then [] else Flatten(resultSets[..|resultSets| - 1]) + resultSets[|resultSets| - 1]
  }

  /** `_get_max_throughput_mbps`: a running maximum over every result of every set. */
  method GetMaxThroughputMbps(resultSets: seq<seq<Record>>) returns (r: Result<int>)
    ensures r == MaxMbps(Flatten(resultSets))
  {
    var maxThroughput := 0;
    for i := 0 to |resultSets|
      invariant MaxMbps(Flatten(resultSets[..i])) == Ok(maxThroughput)
    {
      assert resultSets[..i + 1][..i] == resultSets[..i];
      var afterSet := MaxOverSet(Flatten(resultSets[..i]), resultSets[i], maxThroughput);
      if afterSet.Err? {
        ErrorSpreads(resultSets, i + 1);
        return afterSet;
      }
      maxThroughput := afterSet.value;
    }
    assert resultSets[..|resultSets|] == resultSets;
    r := Ok(maxThroughput);
  }

  /** The inner loop of `_get_max_throughput_mbps`: the running maximum carried through one result set. */
  method MaxOverSet(ghost done: seq<Record>, resultSet: seq<Record>, maxSoFar: int) returns (r: Result<int>)
    requires MaxMbps(done) == Ok(maxSoFar)
    ensures r == MaxMbps(done + resultSet)
  {
    MaxMbpsThenSteps(done, resultSet);
    var maxThroughput := maxSoFar;
    for j := 0 to |resultSet|
      invariant MaxSteps(Ok(maxThroughput), resultSet[j..]) == MaxMbps(done + resultSet)
    {
      assert resultSet[j..] == [resultSet[j]] + resultSet[j + 1..];
      var t := ThroughputMbps(resultSet[j]);
      if t.Err? {
        StepsKeepError(t.error, resultSet[j + 1..]);
        return Err(t.error);
      }
      if t.value.Some? {
        maxThroughput := if t.value.value > maxThroughput then t.value.value else maxThroughput;
      }
    }
    r := Ok(maxThroughput);
  }

  /** The running maximum continued from `acc` over more results, front to back. */
  function MaxSteps(acc: Result<int>, records: seq<Record>): Result<int>
    decreases |records|
  {
    if records == [] then acc else MaxSteps(MaxStep(acc, records[0]), records[1..])
  }

  /** Once failed, the running maximum stays failed. */
  lemma {:induction false} StepsKeepError(e: PyError, records: seq<Record>)
    ensures MaxSteps(Err(e), records) == Err(e)
    decreases |records|
  {
    if records != [] {
      StepsKeepError(e, records[1..]);
    }
  }

  /** The maximum over `a + b` is the maximum over `a` continued over `b`. */
  lemma {:induction false} MaxMbpsThenSteps(a: seq<Record>, b: seq<Record>)
    ensures MaxMbps(a + b) == MaxSteps(MaxMbps(a), b)
    decreases |b|
  {
    if b != [] {
      var extended := a + [b[0]];
      MaxMbpsAppend(a, b[0]);
      MaxMbpsThenSteps(extended, b[1..]);
      assert extended + b[1..] == a + b;
      assert MaxSteps(MaxMbps(a), b) == MaxSteps(MaxStep(MaxMbps(a), b[0]), b[1..]);
    } else {
      assert a + b == a;
    }
  }

  /** A failing prefix of the sets fails the whole maximum. */
  lemma ErrorSpreads(resultSets: seq<seq<Record>>, n: nat)
    requires n <= |resultSets|
    requires MaxMbps(Flatten(resultSets[..n])).Err?
    ensures MaxMbps(Flatten(resultSets)) == MaxMbps(Flatten(resultSets[..n]))
  {
    FlattenSplit(resultSets, n);
    MaxMbpsPrefixError(Flatten(resultSets[..n]), Flatten(resultSets[n..]));
  }

  /** Flattening distributes over a split of the sets. */
  lemma {:induction false} FlattenSplit(resultSets: seq<seq<Record>>, n: nat)
    requires n <= |resultSets|
    ensures Flatten(resultSets) == Flatten(resultSets[..n]) + Flatten(resultSets[n..])
    decreases |resultSets| - n
  {
    if n == |resultSets| {
      assert resultSets[..n] == resultSets;
      assert resultSets[n..] == [];
    } else {
      FlattenSplit(resultSets, n + 1);
      assert resultSets[..n + 1][..n] == resultSets[..n];
      FlattenCons(resultSets[n], resultSets[n + 1..]);
      assert resultSets[n..] == [resultSets[n]] + resultSets[n + 1..];
    }
  }

  /** Flattening a set followed by more sets. */
  lemma {:induction false} FlattenCons(first: seq<Record>, rest: seq<seq<Record>>)
    ensures Flatten([first] + rest) == first + Flatten(rest)
    decreases |rest|
  {
    if rest == [] {
      assert [first] + rest == [first];
      assert Flatten([first]) == Flatten([]) + first;
    } else {
      var init := rest[..|rest| - 1];
      var last := rest[|rest| - 1];
      FlattenCons(first, init);
      var whole := [first] + rest;
      assert whole[..|whole| - 1] == [first] + init;
      assert whole[|whole| - 1] == last;
      assert Flatten(whole) == Flatten([first] + init) + last;
      assert Flatten(rest) == Flatten(init) + last;
      assert first + Flatten(init) + last == first + (Flatten(init) + last);
    }
  }

  /** The least of a non-empty list of reals. */
  function Min(xs: seq<real>): (m: real)
    requires xs != []
    ensures forall i :: 0 <= i < |xs| ==> m <= xs[i]
    ensures exists i :: 0 <= i < |xs| && m == xs[i]
  {
    if |xs| == 1 then xs[0]
    else
      var rest := Min(xs[1..]);
      assert forall i :: 1 <= i < |xs| ==> xs[i] == xs[1..][i - 1];
      if xs[0] <= rest then xs[0] else rest
  }

  /**
   * `_plot_throughput` without the drawing: times in seconds shifted so the earliest is 0,
   * and throughputs in whole Mbit/s, from the (timestamp ns, throughput bps) of each row.
   * No rows at all is a ValueError from `min`.
   */
  method PlotSeries(items: seq<(int, int)>) returns (r: Result<(seq<real>, seq<int>)>)
    ensures r.Err? <==> items == []
    ensures r.Err? ==> r.error == ValueError
    ensures r.Ok? ==> |r.value.0| == |items| && |r.value.1| == |items|
    ensures r.Ok? ==> forall i :: 0 <= i < |items| ==> r.value.1[i] == Trunc(items[i].1 as real / 1000000.0)
    ensures r.Ok? ==> forall i :: 0 <= i < |items| ==> r.value.0[i] >= 0.0
    ensures r.Ok? ==> exists i :: 0 <= i < |items| && r.value.0[i] == 0.0
    ensures r.Ok? ==> forall i, j :: 0 <= i < |items| && 0 <= j < |items| ==>
      (r.value.0[i] <= r.value.0[j] <==> items[i].0 <= items[j].0)
    ensures r.Ok? ==> forall i, j :: 0 <= i < |items| && 0 <= j < |items| ==>
      r.value.0[j] - r.value.0[i] == (items[j].0 - items[i].0) as real / 1000000000.0
  {
    var timestamps: seq<real> := [];
    var throughputs: seq<int> := [];
    for i := 0 to |items|
      invariant |timestamps| == i && |throughputs| == i
      invariant forall j :: 0 <= j < i ==> timestamps[j] == items[j].0 as real / 1000000000.0
      invariant forall j :: 0 <= j < i ==> throughputs[j] == Trunc(items[j].1 as real / 1000000.0)
    {
      timestamps := timestamps + [items[i].0 as real / 1000000000.0];
      throughputs := throughputs + [Trunc(items[i].1 as real / 1000000.0)];
    }
    if timestamps == [] {
      return Err(ValueError);
    }
    var minTimestamp := Min(timestamps);
    var shifted := seq(|timestamps|, i requires 0 <= i < |timestamps| => timestamps[i] - minTimestamp);
    var k :| 0 <= k < |timestamps| && minTimestamp == timestamps[k];
    assert shifted[k] == 0.0;
    r := Ok((shifted, throughputs));
  }

  /**
   * The row of one HTTP interval in `run_without_monitor`: a dictionary of only the timestamp
   * and the whole bit rate, `int(rate_bps)`.
   */
  function HttpRow(interval: HttpInterval): (r: Record)
    ensures Keys(r) == ["timestamp", "throughput"]
    ensures Lookup(r, "timestamp") == Ok(Int(interval.timestamp))
    ensures Lookup(r, "throughput") == Ok(Int(Trunc(interval.rateBps)))
  {
    var row := [("timestamp", Int(interval.timestamp)), ("throughput", Int(Trunc(interval.rateBps)))];
    assert Keys(row)[0] == "timestamp" && Keys(row)[1] == "throughput";
    row
  }

  /** The rows of `run_without_monitor`: one per HTTP interval, in interval order. */
  method HttpRows(intervals: seq<HttpInterval>) returns (rows: seq<Record>)
    ensures |rows| == |intervals|
    ensures forall k :: 0 <= k < |rows| ==> rows[k] == HttpRow(intervals[k])
  {
    rows := [];
    for k := 0 to |intervals|
      invariant |rows| == k
      invariant forall j :: 0 <= j < k ==> rows[j] == HttpRow(intervals[j])
    {
      rows := rows + [HttpRow(intervals[k])];
    }
  }

  /** With no string throughput among the results the running maximum cannot fail. */
  lemma {:induction false} MaxMbpsOkWithoutStrings(records: seq<Record>)
    requires forall k :: 0 <= k < |records| ==> ThroughputMbps(records[k]).Ok?
    ensures MaxMbps(records).Ok?
  {
    if records != [] {
      MaxMbpsOkWithoutStrings(records[..|records| - 1]);
    }
  }

  /**
   * The rows of the run without a monitor all have an integer throughput: the maximum over
   * them exists and is at least each interval's rate in whole Mbit/s.
   */
  lemma HttpRowsBoundMaximum(intervals: seq<HttpInterval>, rows: seq<Record>)
    requires |rows| == |intervals|
    requires forall k :: 0 <= k < |rows| ==> rows[k] == HttpRow(intervals[k])
    ensures MaxMbps(rows).Ok?
    ensures forall k :: 0 <= k < |rows| ==> HttpRowMbps(intervals[k]) <= MaxMbps(rows).value
  {
    forall k | 0 <= k < |rows|
      ensures ThroughputMbps(rows[k]) == Ok(Some(HttpRowMbps(intervals[k])))
    {
      HttpRowThroughput(intervals[k]);
    }
    MaxMbpsOkWithoutStrings(rows);
    MaxMbpsIsMaximum(rows);
  }

  /** An interval's rate in whole Mbit/s, as `_get_max_throughput_mbps` reads it back from its row. */
  function HttpRowMbps(interval: HttpInterval): int
  {
    Trunc(Trunc(interval.rateBps) as real / 1000000.0)
  }

  lemma HttpRowThroughput(interval: HttpInterval)
    ensures ThroughputMbps(HttpRow(interval)) == Ok(Some(HttpRowMbps(interval)))
  {
    assert Lookup(HttpRow(interval), "throughput") == Ok(Int(Trunc(interval.rateBps)));
  }
}
