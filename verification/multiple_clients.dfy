/**
 * back2back/multiple_clients.py: several HTTP clients on one port against one server, waited
 * for until all are done or the longest one has had its time plus two seconds.
 */
module MultipleClients {
  import opened Wrappers
  import opened Http

  /** One entry of `http_clients`: the method as the configuration spells it, and a duration. */
  datatype ClientEntry = ClientEntry(httpMethod: string, durationNs: int)

  /** The parsed client configuration kept by the example. */
  datatype ClientConfig = ClientConfig(httpMethod: Method, durationNs: int)

  /**
   * `__init__`: each entry's method name goes through the SDK's
   * `ParseHTTPRequestMethodFromString` (the parameter `parse`, whose exception for an unknown
   * name stops the constructor); otherwise one configuration per entry, in entry order.
   */
  method ParseConfigs(entries: seq<ClientEntry>, parse: string -> Result<Method>)
    returns (r: Result<seq<ClientConfig>>)
    ensures r.Err? <==> exists i :: 0 <= i < |entries| && parse(entries[i].httpMethod).Err?
    ensures r.Err? ==>
      exists k :: 0 <= k < |entries| && parse(entries[k].httpMethod) == Err(r.error) &&
                  forall j :: 0 <= j < k ==> parse(entries[j].httpMethod).Ok?
    ensures r.Ok? ==>
      |r.value| == |entries| &&
      forall i :: 0 <= i < |entries| ==>
        r.value[i] == ClientConfig(parse(entries[i].httpMethod).value, entries[i].durationNs)
  {
    var configs := [];
    for i := 0 to |entries|
      invariant |configs| == i
      invariant forall j :: 0 <= j < i ==>
        parse(entries[j].httpMethod).Ok? &&
        configs[j] == ClientConfig(parse(entries[j].httpMethod).value, entries[j].durationNs)
    {
      var httpMethod := parse(entries[i].httpMethod);
      if httpMethod.Err? {
        return Err(httpMethod.error);
      }
      configs := configs + [ClientConfig(httpMethod.value, entries[i].durationNs)];
    }
    return Ok(configs);
  }

  /** Each client's duration in seconds. */
  function DurationsSeconds(configs: seq<ClientConfig>): (r: seq<real>)
    ensures |r| == |configs|
    ensures forall i :: 0 <= i < |configs| ==> r[i] == configs[i].durationNs as real / 1000000000.0
  {
    seq(|configs|, i requires 0 <= i < |configs| => configs[i].durationNs as real / 1000000000.0)
  }

  /** `max_duration`: the longest client duration in seconds, 0 when there are no clients. */
  method MaxDuration(configs: seq<ClientConfig>) returns (m: real)
    ensures m == MaxFromZero(DurationsSeconds(configs))
    ensures configs == [] ==> m == 0.0
    ensures forall i :: 0 <= i < |configs| ==> configs[i].durationNs as real / 1000000000.0 <= m
  {
    MaxFromZeroIsMaximum(DurationsSeconds(configs));
    m := LongestDuration(DurationsSeconds(configs));
  }

  /** The extra seconds the waiting loop grants on top of the longest duration. */
  const EXTRA_TIME := 2.0

  /**
   * The waiting loop of `run`: it polls until a poll sees no client running or comes after
   * `2 + max_duration` seconds, whichever is first.
   */
  method WaitForAll(configs: seq<ClientConfig>, polls: seq<Poll>) returns (passes: nat)
    ensures var limit := EXTRA_TIME + MaxFromZero(DurationsSeconds(configs));
      FirstStop(polls, limit).Some? ==> passes == FirstStop(polls, limit).value + 1
    ensures var limit := EXTRA_TIME + MaxFromZero(DurationsSeconds(configs));
      FirstStop(polls, limit).None? ==> passes == |polls|
  {
    var m := MaxDuration(configs);
    MaxFromZeroIsMaximum(DurationsSeconds(configs));
    passes := WaitForClients(polls, EXTRA_TIME + m);
  }

  /** What a client's HTTP and TCP results report. */
  datatype Snapshot = Snapshot(txBytes: int, rxBytes: int, bitrate: real, minCwnd: int, maxCwnd: int)

  /** `process_http_client`'s list: `[tx, rx, bitrate, min_cwnd, max_cwnd, status]`. */
  datatype ClientReport = ClientReport(
    txBytes: int, rxBytes: int, bitrate: real, minCwnd: int, maxCwnd: int, status: RequestStatus)

  /** The method names `process_http_client` knows. */
  function MethodName(m: Method): (r: Result<string>)
    ensures r.Ok? <==> m == Get || m == Put
    ensures m == Get ==> r == Ok("GET")
    ensures m == Put ==> r == Ok("PUT")
    ensures r.Err? ==> r.error == KeyError
  {
    match m
    case Get => Ok("GET")
    case Put => Ok("PUT")
    case OtherMethod(_) => Err(KeyError)
  }

  /**
   * `process_http_client`: the client's own session counters and status, for GET and PUT; the
   * name lookup raises KeyError for any other method before anything is read.
   */
  function ProcessHttpClient(m: Method, s: Snapshot, status: RequestStatus): (r: Result<ClientReport>)
    ensures r.Err? <==> MethodName(m).Err?
    ensures r.Err? ==> r.error == KeyError
    ensures r.Ok? ==> r.value == ClientReport(s.txBytes, s.rxBytes, s.bitrate, s.minCwnd, s.maxCwnd, status)
  {
    match MethodName(m)
    case Err(e) => Err(e)
    case Ok(_) => Ok(ClientReport(s.txBytes, s.rxBytes, s.bitrate, s.minCwnd, s.maxCwnd, status))
  }
}
