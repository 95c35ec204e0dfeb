/**
 * back2back/tcp.py: one HTTP request between two ports, then the result list built from the
 * client's session.
 */
module Tcp {
  import opened Wrappers
  import opened Http

  /** What a session's HTTP and TCP results report. */
  datatype Snapshot = Snapshot(txBytes: int, rxBytes: int, avgThroughput: real, minCwnd: int, maxCwnd: int)

  /** The returned list, `[request_size, duration, tx, rx, avg, min_cwnd, max_cwnd, status]`. */
  datatype Report = Report(
    requestSize: Option<int>, duration: Option<int>, txBytes: int, rxBytes: int,
    avgThroughput: real, minCwnd: int, maxCwnd: int, status: RequestStatus)

  /**
   * The result part of `run`. Both branches test for GET, so the server-side branch is dead:
   * GET reports the client session; for any other method the counters stay the integer 0 and
   * printing `avg_throughput.toString()` raises AttributeError before the list is returned.
   */
  function ProcessResults(httpMethod: Method, client: Snapshot, server: Snapshot,
                          requestSize: Option<int>, duration: Option<int>, status: RequestStatus)
    : (r: Result<Report>)
    ensures r.Ok? <==> httpMethod == Get
    ensures r.Ok? ==>
      r.value.txBytes == client.txBytes && r.value.rxBytes == client.rxBytes &&
      r.value.avgThroughput == client.avgThroughput &&
      r.value.minCwnd == client.minCwnd && r.value.maxCwnd == client.maxCwnd
    ensures r.Ok? ==>
      r.value.requestSize == requestSize && r.value.duration == duration && r.value.status == status
    ensures r.Err? ==> r.error == AttributeError
  {
    if httpMethod == Get then
      Ok(Report(requestSize, duration, client.txBytes, client.rxBytes, client.avgThroughput,
                client.minCwnd, client.maxCwnd, status))
    else if httpMethod == Get then
      Ok(Report(requestSize, duration, server.txBytes, server.rxBytes, server.avgThroughput,
                server.minCwnd, server.maxCwnd, status))
    else
      Err(AttributeError)
  }

  /**
   * The evidently intended result part: the second branch tests for PUT and reports the
   * server's session of the request.
   */
  function ProcessResultsCorrected(httpMethod: Method, client: Snapshot, server: Snapshot,
                                   requestSize: Option<int>, duration: Option<int>, status: RequestStatus)
    : (r: Result<Report>)
    ensures r.Ok? <==> httpMethod == Get || httpMethod == Put
    ensures r.Ok? ==>
      var s := if httpMethod == Put then server else client;
      r.value == Report(requestSize, duration, s.txBytes, s.rxBytes, s.avgThroughput,
                        s.minCwnd, s.maxCwnd, status)
  {
    if httpMethod == Get then
      Ok(Report(requestSize, duration, client.txBytes, client.rxBytes, client.avgThroughput,
                client.minCwnd, client.maxCwnd, status))
    else if httpMethod == Put then
      Ok(Report(requestSize, duration, server.txBytes, server.rxBytes, server.avgThroughput,
                server.minCwnd, server.maxCwnd, status))
    else
      Err(AttributeError)
  }

  /**
   * A PUT request fails as written but reports the server session once corrected; GET
   * requests are unaffected by the correction.
   */
  lemma PutRequestFails(client: Snapshot, server: Snapshot, requestSize: Option<int>,
                        duration: Option<int>, status: RequestStatus)
    ensures ProcessResults(Put, client, server, requestSize, duration, status) == Err(AttributeError)
    ensures ProcessResultsCorrected(Put, client, server, requestSize, duration, status).Ok?
    ensures ProcessResultsCorrected(Put, client, server, requestSize, duration, status).value.txBytes
         == server.txBytes
    ensures ProcessResultsCorrected(Get, client, server, requestSize, duration, status)
         == ProcessResults(Get, client, server, requestSize, duration, status)
  {
  }
}
