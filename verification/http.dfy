/**
 * The HTTP-client rules the TCP examples share: how a request is bounded, which TCP port the
 * server listens on, when a client still counts as running, the longest client duration and
 * the polling loop that waits for the clients.
 */
module Http {
  import opened Wrappers

  /** The request methods of the SDK the examples use; any other one is kept opaque. */
  datatype Method = Get | Put | OtherMethod(code: int)

  /** The request states the examples look at. */
  datatype RequestStatus = Scheduled | Connecting | Running | Finished | Error | Stopped

  /** What bounds a single request: a duration in nanoseconds or a size in bytes. */
  datatype RequestLimit = ByDuration(ns: int) | BySize(bytes: int)

  /**
   * `if duration is not None: ... elif size is not None: ... else: raise ValueError`: the
   * duration wins; the size is used only without a duration; neither raises ValueError.
   */
  function RequestLimitFor(duration: Option<int>, size: Option<int>): (r: Result<RequestLimit>)
    ensures r.Err? <==> duration.None? && size.None?
    ensures r.Err? ==> r.error == ValueError
    ensures r.Ok? && r.value.ByDuration? <==> duration.Some?
    ensures r.Ok? && r.value.ByDuration? ==> r.value.ns == duration.value
    ensures r.Ok? && r.value.BySize? ==> r.value.bytes == size.value
  {
    if duration.Some? then Ok(ByDuration(duration.value))
    else if size.Some? then Ok(BySize(size.value))
    else Err(ValueError)
  }

  /** The TCP port the client connects to: the configured one, or the server's own default. */
  function ServerPort(configured: Option<int>, serverDefault: int): (p: int)
    ensures configured.Some? ==> p == configured.value
    ensures configured.None? ==> p == serverDefault
  {
    configured.GetOr(serverDefault)
  }

  /** `status not in [Error, Finished]`. */
  predicate IsRunning(status: RequestStatus)
  {
    status != Error && status != Finished
  }

  /** `any_client_running = any_client_running or this_client_running` over all clients. */
  method AnyRunning(statuses: seq<RequestStatus>) returns (any: bool)
    ensures any <==> exists i :: 0 <= i < |statuses| && IsRunning(statuses[i])
  {
    any := false;
    for i := 0 to |statuses|
      invariant any <==> exists j :: 0 <= j < i && IsRunning(statuses[j])
    {
      any := any || IsRunning(statuses[i]);
    }
  }

  /** The running maximum `max_duration = max(max_duration, x)` from 0. */
  function MaxFromZero(xs: seq<real>): real
  {
    if xs == [] then 0.0
    else
      var m := MaxFromZero(xs[..|xs| - 1]);
      if xs[|xs| - 1] > m then xs[|xs| - 1] else m
  }

  /** The running maximum is the largest value, or 0 when every value is at most 0. */
  lemma {:induction false} MaxFromZeroIsMaximum(xs: seq<real>)
    ensures MaxFromZero(xs) >= 0.0
    ensures forall i :: 0 <= i < |xs| ==> xs[i] <= MaxFromZero(xs)
    ensures MaxFromZero(xs) == 0.0 || exists i :: 0 <= i < |xs| && xs[i] == MaxFromZero(xs)
  {
    if xs != [] {
      var init := xs[..|xs| - 1];
      MaxFromZeroIsMaximum(init);
      assert forall i :: 0 <= i < |init| ==> xs[i] == init[i];
      if MaxFromZero(init) != 0.0 && xs[|xs| - 1] <= MaxFromZero(init) {
        var i :| 0 <= i < |init| && init[i] == MaxFromZero(init);
        assert xs[i] == MaxFromZero(xs);
      }
    }
  }

  /** `max_duration = max(max_duration, x)` for each client, starting from 0. */
  method LongestDuration(xs: seq<real>) returns (m: real)
    ensures m == MaxFromZero(xs)
  {
    m := 0.0;
    for i := 0 to |xs|
      invariant m == MaxFromZero(xs[..i])
    {
      assert xs[..i + 1][..i] == xs[..i];
      m := if m > xs[i] then m else xs[i];
    }
    assert xs[..|xs|] == xs;
  }

  /** What one pass of the waiting loop observes: the elapsed seconds and the client states. */
  datatype Poll = Poll(elapsed: real, statuses: seq<RequestStatus>)

  /** A poll after which the loop stops: no client running, or the time limit passed. */
  predicate StopsAt(p: Poll, limit: real)
  {
    (forall i :: 0 <= i < |p.statuses| ==> !IsRunning(p.statuses[i])) || p.elapsed > limit
  }

  /** The index of the first poll after which the loop stops, if any. */
  function FirstStop(polls: seq<Poll>, limit: real): (r: Option<nat>)
    ensures r.Some? ==> r.value < |polls| && StopsAt(polls[r.value], limit)
    ensures r.Some? ==> forall j :: 0 <= j < r.value ==> !StopsAt(polls[j], limit)
    ensures r.None? ==> forall j :: 0 <= j < |polls| ==> !StopsAt(polls[j], limit)
  {
    if polls == [] then None
    else if StopsAt(polls[0], limit) then Some(0)
    else
      match FirstStop(polls[1..], limit)
      case None => None
      case Some(k) => Some(k + 1)
  }

  /**
   * The waiting loop: `while elapsed <= extra + max_duration`, sleep, read the clock, stop at
   * once when no client runs. With `limit >= 0` the first pass always happens; the loop makes
   * one pass per poll up to and including the first one it stops at (all of them when none
   * stops it).
   */
  method WaitForClients(polls: seq<Poll>, limit: real) returns (passes: nat)
    requires limit >= 0.0
    ensures FirstStop(polls, limit).Some? ==> passes == FirstStop(polls, limit).value + 1
    ensures FirstStop(polls, limit).None? ==> passes == |polls|
  {
    var elapsed := 0.0;
    passes := 0;
    while elapsed <= limit && passes < |polls|
      invariant passes <= |polls|
      invariant forall j :: 0 <= j < passes - 1 ==> !StopsAt(polls[j], limit)
      invariant passes > 0 ==> elapsed == polls[passes - 1].elapsed
      invariant passes > 0 ==> (StopsAt(polls[passes - 1], limit) <==> elapsed > limit)
      invariant passes == 0 ==> elapsed == 0.0
      decreases |polls| - passes
    {
      var p := polls[passes];
      elapsed := p.elapsed;
      var running := AnyRunning(p.statuses);
      passes := passes + 1;
      if !running {
        assert StopsAt(p, limit);
        return;
      }
    }
  }
}
