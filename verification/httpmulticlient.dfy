/**
 * back2back/httpmulticlient.py: an HTTP multi-client that opens many sessions against one
 * HTTP multi-server, polled a fixed number of times, then summarised in one result list.
 */
module HttpMultiClient {
  import opened Wrappers
  import opened PyMath
  import opened Http

  /** The example's parameters. */
  datatype Config = Config(
    duration: int, sessionDuration: Option<int>, sessionSize: Option<int>,
    maxTotalSessions: int, maxConcurrentSessions: int, serverTcpPort: Option<int>)

  /** What the client is configured with. */
  datatype ClientSetup = ClientSetup(
    remotePort: int, duration: int, connectionLimit: int, concurrentLimit: int, session: RequestLimit)

  /**
   * The client configuration of `run`: the server's port (its default when none is
   * configured), the total duration and limits, and each session bounded by duration before
   * size; with neither, ValueError.
   */
  function Configure(c: Config, serverDefaultPort: int): (r: Result<ClientSetup>)
    ensures r.Err? <==> c.sessionDuration.None? && c.sessionSize.None?
    ensures r.Err? ==> r.error == ValueError
    ensures r.Ok? ==> r.value.remotePort == ServerPort(c.serverTcpPort, serverDefaultPort)
    ensures r.Ok? ==> Ok(r.value.session) == RequestLimitFor(c.sessionDuration, c.sessionSize)
    ensures r.Ok? ==>
      r.value.duration == c.duration && r.value.connectionLimit == c.maxTotalSessions &&
      r.value.concurrentLimit == c.maxConcurrentSessions
  {
    var port := ServerPort(c.serverTcpPort, serverDefaultPort);
    match RequestLimitFor(c.sessionDuration, c.sessionSize)
    case Err(e) => Err(e)
    case Ok(limit) => Ok(ClientSetup(port, c.duration, c.maxTotalSessions, c.maxConcurrentSessions, limit))
  }

  /** `for iteration in range(10)`: the number of one-second polls. */
  function PollIterations(): (n: nat)
    ensures n == 10
  {
    RangeLength(0, 10)
  }

  /** The client's totals at the end. */
  datatype Totals = Totals(txBytes: int, rxBytes: int, txSpeed: real, rxSpeed: real)

  /**
   * The returned list: duration, session duration, session size, total and concurrent
   * limits, tx and rx bytes, tx and rx speed, status.
   */
  datatype Report = Report(
    duration: int, sessionDuration: Option<int>, sessionSize: Option<int>,
    maxTotalSessions: int, maxConcurrentSessions: int,
    txBytes: int, rxBytes: int, txSpeed: real, rxSpeed: real, status: RequestStatus)

  function MakeReport(c: Config, t: Totals, status: RequestStatus): (r: Report)
    ensures r.duration == c.duration && r.sessionDuration == c.sessionDuration
    ensures r.sessionSize == c.sessionSize
    ensures r.maxTotalSessions == c.maxTotalSessions && r.maxConcurrentSessions == c.maxConcurrentSessions
    ensures r.txBytes == t.txBytes && r.rxBytes == t.rxBytes
    ensures r.txSpeed == t.txSpeed && r.rxSpeed == t.rxSpeed && r.status == status
  {
    Report(c.duration, c.sessionDuration, c.sessionSize, c.maxTotalSessions,
           c.maxConcurrentSessions, t.txBytes, t.rxBytes, t.txSpeed, t.rxSpeed, status)
  }

  /**
   * The returned list echoes the setup the client ran with: the same total duration and
   * limits, and session bounds from which the request limit rule picks the applied limit.
   */
  lemma ReportMatchesSetup(c: Config, serverDefaultPort: int, t: Totals, status: RequestStatus)
    requires Configure(c, serverDefaultPort).Ok?
    ensures var setup := Configure(c, serverDefaultPort).value;
      var report := MakeReport(c, t, status);
      report.duration == setup.duration && report.maxTotalSessions == setup.connectionLimit &&
      report.maxConcurrentSessions == setup.concurrentLimit &&
      RequestLimitFor(report.sessionDuration, report.sessionSize) == Ok(setup.session)
  {
  }
}
