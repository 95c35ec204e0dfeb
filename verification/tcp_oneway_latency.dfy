/**
 * back2back/tcp_oneway_latency.py: an HTTP request with latency measurement, guarded by a
 * server-version check, polled for at least a maximum duration and until the request has
 * finished, with the transmit and receive sides picked by the request method.
 */
module TcpOnewayLatency {
  import opened Wrappers
  import opened PyMath
  import opened Text
  import opened Http

  /** `[int(i) for i in parts]`: the first part that is not an integer raises ValueError. */
  function ParseAll(parts: seq<string>): (r: Result<seq<nat>>)
    ensures r.Ok? <==> forall i :: 0 <= i < |parts| ==> ParseInt(parts[i]).Ok?
    ensures r.Err? ==> r.error == ValueError
    ensures r.Ok? ==> (|r.value| == |parts| &&
      forall i :: 0 <= i < |parts| ==> Ok(r.value[i]) == ParseInt(parts[i]))
  {
    if parts == [] then Ok([])
    else
      match ParseInt(parts[0])
      case Err(e) => Err(e)
      case Ok(v) =>
        match ParseAll(parts[1..])
        case Err(e) => Err(e)
        case Ok(vs) =>
          assert forall i :: 1 <= i < |parts| ==> parts[i] == parts[1..][i - 1];
          Ok([v] + vs)
  }

  /** `tuple(int(i) for i in version.split('.'))`. */
  function VersionComponents(version: string): Result<seq<nat>>
  {
    ParseAll(Split(version, '.'))
  }

  /** Python's ordering of tuples: the first differing component decides, a prefix is smaller. */
  predicate TupleLess(a: seq<int>, b: seq<int>)
  {
    if |a| == 0 then |b| > 0
    else if |b| == 0 then false
    else if a[0] != b[0] then a[0] < b[0]
    else TupleLess(a[1..], b[1..])
  }

  /** `a` is a proper prefix of `b`. */
  predicate ProperPrefix(a: seq<int>, b: seq<int>)
  {
    |a| < |b| && a == b[..|a|]
  }

  /** At the first position where they differ, `a` has the smaller component. */
  predicate SmallerAtFirstDifference(a: seq<int>, b: seq<int>)
  {
    exists k :: 0 <= k < |a| && k < |b| && a[..k] == b[..k] && a[k] < b[k]
  }

  /** `a < b` holds exactly when `a` is a proper prefix of `b`, or at the first difference `a` is smaller. */
  lemma {:induction false} TupleLessMeaning(a: seq<int>, b: seq<int>)
    ensures TupleLess(a, b) <==> ProperPrefix(a, b) || SmallerAtFirstDifference(a, b)
    decreases |a|
  {
    if |a| > 0 && |b| > 0 {
      if a[0] == b[0] {
        TupleLessMeaning(a[1..], b[1..]);
        PrefixStep(a, b);
        DifferenceStep(a, b);
      } else {
        if a[0] < b[0] {
          assert a[..0] == b[..0];
        }
        assert |a| < |b| ==> b[..|a|][0] == b[0];
      }
    }
  }

  /** With equal heads, being a proper prefix is decided by the tails. */
  lemma PrefixStep(a: seq<int>, b: seq<int>)
    requires |a| > 0 && |b| > 0 && a[0] == b[0]
    ensures ProperPrefix(a, b) <==> ProperPrefix(a[1..], b[1..])
  {
    if ProperPrefix(a, b) {
      assert a[1..] == b[1..][..|a| - 1];
    }
    if ProperPrefix(a[1..], b[1..]) {
      assert a == [a[0]] + a[1..];
      assert b[..|a|] == [b[0]] + b[1..][..|a| - 1];
    }
  }

  /** With equal heads, the first difference lies in the tails, one position earlier. */
  lemma DifferenceStep(a: seq<int>, b: seq<int>)
    requires |a| > 0 && |b| > 0 && a[0] == b[0]
    ensures SmallerAtFirstDifference(a, b) <==> SmallerAtFirstDifference(a[1..], b[1..])
  {
    if SmallerAtFirstDifference(a, b) {
      var k :| 0 <= k < |a| && k < |b| && a[..k] == b[..k] && a[k] < b[k];
      assert k > 0;
      assert a[1..][..k - 1] == a[..k][1..];
      assert b[1..][..k - 1] == b[..k][1..];
      assert a[1..][k - 1] < b[1..][k - 1];
    }
    if SmallerAtFirstDifference(a[1..], b[1..]) {
      var k :| 0 <= k < |a| - 1 && k < |b| - 1 && a[1..][..k] == b[1..][..k] && a[1..][k] < b[1..][k];
      assert a[..k + 1] == [a[0]] + a[1..][..k];
      assert b[..k + 1] == [b[0]] + b[1..][..k];
    }
  }

  /** The oldest server version that supports the measurement. */
  const MINIMUM_VERSION: seq<int> := [2, 14, 0]

  /**
   * `check_server_version`: a version text with a non-integer component raises ValueError;
   * one whose component tuple is below (2, 14, 0) raises RuntimeError; any other passes.
   */
  function CheckServerVersion(version: string): (r: Result<seq<nat>>)
    ensures VersionComponents(version).Err? ==> r == Err(ValueError)
    ensures VersionComponents(version).Ok? ==>
      (r.Err? <==> TupleLess(VersionComponents(version).value, MINIMUM_VERSION))
    ensures r.Err? ==> r.error == ValueError || r.error == RuntimeError
    ensures r.Ok? ==> r == VersionComponents(version)
  {
    match VersionComponents(version)
    case Err(e) => Err(e)
    case Ok(components) =>
      if TupleLess(components, MINIMUM_VERSION) then Err(RuntimeError) else Ok(components)
  }

  /** The version text a server reports for the given components. */
  function VersionText(components: seq<nat>): string
  {
    Join(seq(|components|, i requires 0 <= i < |components| => DecimalText(components[i])), ".")
  }

  /** Reading a version text back gives its components. */
  lemma VersionRoundTrip(components: seq<nat>)
    requires |components| >= 1
    ensures VersionComponents(VersionText(components)) == Ok(components)
  {
    var texts := seq(|components|, i requires 0 <= i < |components| => DecimalText(components[i]));
    forall i | 0 <= i < |texts|
      ensures '.' !in texts[i] && ParseInt(texts[i]) == Ok(components[i])
    {
      DecimalTextDigits(components[i]);
      DecimalRoundTrip(components[i]);
      assert forall j :: 0 <= j < |texts[i]| ==> texts[i][j] != '.';
    }
    SplitJoin(texts, '.');
    assert Join(texts, ".") == Join(texts, ['.']);
    var r := ParseAll(texts);
    assert r.value == components;
  }

  /**
   * The check compares numbers, not texts: 2.9.0 is refused and 2.100.0 accepted; a
   * two-component 2.14 is refused because (2, 14) < (2, 14, 0).
   */
  lemma VersionExamples()
    ensures CheckServerVersion(VersionText([2, 9, 0])) == Err(RuntimeError)
    ensures CheckServerVersion(VersionText([2, 100, 0])) == Ok([2, 100, 0])
    ensures CheckServerVersion(VersionText([2, 14])) == Err(RuntimeError)
    ensures CheckServerVersion(VersionText([2, 14, 0])) == Ok([2, 14, 0])
  {
    VersionRoundTrip([2, 9, 0]);
    VersionRoundTrip([2, 100, 0]);
    VersionRoundTrip([2, 14]);
    VersionRoundTrip([2, 14, 0]);
    assert TupleLess([2, 9, 0], MINIMUM_VERSION) by {
      assert [2, 9, 0][1..] == [9, 0] && MINIMUM_VERSION[1..] == [14, 0];
    }
    assert !TupleLess([2, 100, 0], MINIMUM_VERSION) by {
      assert [2, 100, 0][1..] == [100, 0] && MINIMUM_VERSION[1..] == [14, 0];
    }
    assert TupleLess([2, 14], MINIMUM_VERSION) by {
      assert [2, 14][1..] == [14] && MINIMUM_VERSION[1..] == [14, 0];
      assert [14][1..] == [] && [14, 0][1..] == [0];
    }
    assert !TupleLess([2, 14, 0], MINIMUM_VERSION) by {
      assert [2, 14, 0][1..] == [14, 0] && MINIMUM_VERSION[1..] == [14, 0];
      assert [14, 0][1..] == [0] && [0][1..] == [];
    }
  }

  /**
   * The maximum duration in seconds: `max_duration` (1e9 ns when missing or 0) truncated to
   * whole nanoseconds, over 1e9.
   */
  function MaxDurationSeconds(maxDuration: Option<real>): (s: real)
    ensures maxDuration.None? || maxDuration.value == 0.0 ==> s == 1.0
    ensures maxDuration.Some? && maxDuration.value != 0.0 ==>
      s == Trunc(maxDuration.value) as real / 1000000000.0
  {
    var ns := if maxDuration.None? || maxDuration.value == 0.0 then 1000000000.0 else maxDuration.value;
    Trunc(ns) as real / 1000000000.0
  }

  /** A configured maximum below one nanosecond is truthy but truncates to no time at all. */
  lemma SubNanosecondMaximum(v: real)
    requires 0.0 < v < 1.0
    ensures MaxDurationSeconds(Some(v)) == 0.0
  {
  }

  /** Which HTTP session plays which part. */
  datatype Side = ServerSession | ClientSession

  /** `process_results`: GET sends from the server to the client; PUT swaps the two. */
  function TxRxSessions(httpMethod: Method): (r: (Side, Side))
    ensures r.0 != r.1
    ensures httpMethod == Put <==> r.0 == ClientSession
  {
    if httpMethod == Put then (ClientSession, ServerSession) else (ServerSession, ClientSession)
  }

  /** What the polling loop sees at each test of its condition. */
  datatype Check = Check(elapsed: real, status: RequestStatus)

  /** The loop condition fails, ending the loop, only once the time is up and the request finished. */
  predicate Exits(c: Check, maxDuration: real)
  {
    c.elapsed >= maxDuration && c.status == Finished
  }

  /**
   * The polling loop of `run`: refresh and sleep while `elapsed < max_duration or status !=
   * Finished`. It makes as many passes as there are checks before the first one where it exits.
   */
  method PollUntilFinished(checks: seq<Check>, maxDuration: real) returns (passes: nat)
    ensures passes <= |checks|
    ensures forall j :: 0 <= j < passes ==> !Exits(checks[j], maxDuration)
    ensures passes < |checks| ==> Exits(checks[passes], maxDuration)
  {
    passes := 0;
    while passes < |checks| && (checks[passes].elapsed < maxDuration || checks[passes].status != Finished)
      invariant passes <= |checks|
      invariant forall j :: 0 <= j < passes ==> !Exits(checks[j], maxDuration)
    {
      passes := passes + 1;
    }
  }
}
