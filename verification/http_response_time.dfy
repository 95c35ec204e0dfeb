/**
 * back2back/use-cases/http_response_time_measurement.py: HTTP clients, some of them only
 * background load, whose first-byte response times are measured; the scenario is picked from
 * the command line.
 */
module HttpResponseTime {
  import opened Wrappers
  import opened Http

  /** One client of the scenario. */
  datatype ClientConfig = ClientConfig(
    httpMethod: Method, durationNs: int, rateLimit: int, initialWaitNs: int, isLoad: bool)

  /** Each client's end in seconds: its initial wait plus its duration, over 1e9. */
  function EndSeconds(configs: seq<ClientConfig>): (r: seq<real>)
    ensures |r| == |configs|
    ensures forall i :: 0 <= i < |configs| ==>
      r[i] == (configs[i].initialWaitNs + configs[i].durationNs) as real / 1000000000.0
  {
    seq(|configs|, i requires 0 <= i < |configs| =>
      (configs[i].initialWaitNs + configs[i].durationNs) as real / 1000000000.0)
  }

  /** The positions of the clients that are not load, in configuration order. */
  function TrackedIndices(configs: seq<ClientConfig>): (r: seq<nat>)
    ensures forall k :: 0 <= k < |r| ==> r[k] < |configs| && !configs[r[k]].isLoad
    ensures forall k, l :: 0 <= k < l < |r| ==> r[k] < r[l]
  {
    if configs == [] then []
    else
      var init := TrackedIndices(configs[..|configs| - 1]);
      if configs[|configs| - 1].isLoad then init else init + [|configs| - 1]
  }

  /** Every client that is not load is tracked. */
  lemma {:induction false} TrackedComplete(configs: seq<ClientConfig>, i: nat)
    requires i < |configs| && !configs[i].isLoad
    ensures i in TrackedIndices(configs)
    decreases |configs|
  {
    var init := configs[..|configs| - 1];
    if i < |configs| - 1 {
      TrackedComplete(init, i);
    }
  }

  /**
   * The configuration loop of `run`: `max_duration` is the running maximum over every client,
   * load included, and only the clients that are not load are kept for tracking.
   */
  method SetupClients(configs: seq<ClientConfig>) returns (maxDuration: real, tracked: seq<nat>)
    ensures maxDuration == MaxFromZero(EndSeconds(configs))
    ensures tracked == TrackedIndices(configs)
  {
    maxDuration := 0.0;
    tracked := [];
    var ends := EndSeconds(configs);
    for i := 0 to |configs|
      invariant maxDuration == MaxFromZero(ends[..i])
      invariant tracked == TrackedIndices(configs[..i])
    {
      assert ends[..i + 1][..i] == ends[..i];
      assert configs[..i + 1][..i] == configs[..i];
      maxDuration := if maxDuration > ends[i] then maxDuration else ends[i];
      if !configs[i].isLoad {
        tracked := tracked + [i];
      }
    }
    assert ends[..|configs|] == ends;
    assert configs[..|configs|] == configs;
  }

  /** The statuses of the tracked clients, as one poll of the waiting loop sees them. */
  function TrackedStatuses(tracked: seq<nat>, statuses: seq<RequestStatus>): (r: seq<RequestStatus>)
    requires forall k :: 0 <= k < |tracked| ==> tracked[k] < |statuses|
    ensures |r| == |tracked|
    ensures forall k :: 0 <= k < |tracked| ==> r[k] == statuses[tracked[k]]
  {
    seq(|tracked|, k requires 0 <= k < |tracked| => statuses[tracked[k]])
  }

  /**
   * A load client that is still running does not keep the loop waiting: the stop test looks
   * at the tracked clients only.
   */
  lemma LoadClientsIgnored(configs: seq<ClientConfig>, statuses: seq<RequestStatus>, elapsed: real, limit: real)
    requires |statuses| == |configs|
    requires forall i :: 0 <= i < |configs| && !configs[i].isLoad ==> !IsRunning(statuses[i])
    ensures StopsAt(Poll(elapsed, TrackedStatuses(TrackedIndices(configs), statuses)), limit)
  {
  }

  /** `(RxTimestampFirst - TxTimestampFirst) / 1e6`: the response time in milliseconds. */
  function ResponseTimeMs(txFirstNs: int, rxFirstNs: int): (ms: real)
    ensures rxFirstNs >= txFirstNs ==> ms >= 0.0
    ensures ms * 1000000.0 == (rxFirstNs - txFirstNs) as real
  {
    (rxFirstNs - txFirstNs) as real / 1000000.0
  }

  function Sum(xs: seq<real>): real
  {
    if xs == [] then 0.0 else Sum(xs[..|xs| - 1]) + xs[|xs| - 1]
  }

  function Minimum(xs: seq<real>): real
    requires xs != []
  {
    if |xs| == 1 then xs[0]
    else
      var m := Minimum(xs[..|xs| - 1]);
      if xs[|xs| - 1] < m then xs[|xs| - 1] else m
  }

  /** The minimum is one of the values and at most each of them. */
  lemma {:induction false} MinimumIsLeast(xs: seq<real>)
    requires xs != []
    ensures exists i :: 0 <= i < |xs| && xs[i] == Minimum(xs)
    ensures forall i :: 0 <= i < |xs| ==> Minimum(xs) <= xs[i]
  {
    if |xs| > 1 {
      var init := xs[..|xs| - 1];
      MinimumIsLeast(init);
      assert forall i :: 0 <= i < |init| ==> xs[i] == init[i];
      if xs[|xs| - 1] >= Minimum(init) {
        var i :| 0 <= i < |init| && init[i] == Minimum(init);
        assert xs[i] == Minimum(xs);
      } else {
        assert xs[|xs| - 1] == Minimum(xs);
      }
    } else {
      assert xs[0] == Minimum(xs);
    }
  }

  /** A sum of values each at least `m` is at least `m` times their number. */
  lemma {:induction false} SumAtLeast(xs: seq<real>, m: real)
    requires forall i :: 0 <= i < |xs| ==> m <= xs[i]
    ensures Sum(xs) >= m * |xs| as real
  {
    if xs != [] {
      var init := xs[..|xs| - 1];
      SumAtLeast(init, m);
      assert m * |xs| as real == m * |init| as real + m;
    }
  }

  /**
   * The minimum and mean of the response times (before rounding to three decimals); `min` of
   * an empty list raises ValueError. The minimum never exceeds the mean.
   */
  function Summary(times: seq<real>): (r: Result<(real, real)>)
    ensures r.Err? <==> times == []
    ensures r.Err? ==> r.error == ValueError
    ensures r.Ok? ==> r.value.0 <= r.value.1
    ensures r.Ok? ==> forall i :: 0 <= i < |times| ==> r.value.0 <= times[i]
    ensures r.Ok? ==> exists i :: 0 <= i < |times| && r.value.0 == times[i]
    ensures r.Ok? ==> r.value.1 * |times| as real == Sum(times)
  {
    if times == [] then Err(ValueError)
    else
      var mean := Sum(times) / |times| as real;
      MinimumIsLeast(times);
      SumAtLeast(times, Minimum(times));
      assert Minimum(times) * |times| as real <= mean * |times| as real;
      Ok((Minimum(times), mean))
  }

  /** The four scenarios. */
  datatype Profile = Upload | UploadWithLoad | Download | DownloadWithLoad

  /**
   * `sys.argv[1]` picks the scenario; an unknown name falls back to download with load, and a
   * missing argument raises IndexError.
   */
  function ProfileFor(argv: seq<string>): (r: Result<Profile>)
    ensures r.Err? <==> |argv| < 2
    ensures r.Err? ==> r.error == IndexError
    ensures |argv| >= 2 && argv[1] == "upload" ==> r == Ok(Upload)
    ensures |argv| >= 2 && argv[1] == "download" ==> r == Ok(Download)
    ensures |argv| >= 2 && argv[1] == "upload_with_load" ==> r == Ok(UploadWithLoad)
    ensures |argv| >= 2 && argv[1] !in {"upload", "upload_with_load", "download"} ==> r == Ok(DownloadWithLoad)
  {
    if |argv| < 2 then Err(IndexError)
    else if argv[1] == "upload" then Ok(Upload)
    else if argv[1] == "upload_with_load" then Ok(UploadWithLoad)
    else if argv[1] == "download" then Ok(Download)
    else if argv[1] == "download_with_load" then Ok(DownloadWithLoad)
    else Ok(DownloadWithLoad)
  }
}
