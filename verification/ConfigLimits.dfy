/**
 The numeric limits of a validated configuration (internal/config/config.go) and the HTTP/2 stream limit
 derived from them (internal/proxy/run.go).
 */
module ConfigLimits {
  import opened Options
  import opened SlotLimiter

  datatype Config = Config(
    maxConnections: int,
    maxConnectionsPerIP: int,
    maxTunnels: int,
    maxTunnelsPerIP: int,
    maxIdleConns: int,
    maxIdleConnsPerHost: int,
    maxHeaderBytes: int,
    authMaxFailures: int,
    http2MaxConcurrentStreams: int,
    blockedPorts: seq<int>)

  datatype LimitError =
    | NotPositive(index: nat)
    | PerIPTooLarge
    | StreamsInvalid
    | PortInvalid(port: int)
    | PortRepeated(port: int)

  function PositiveLimits(c: Config): seq<int> {
    [c.maxConnections, c.maxConnectionsPerIP, c.maxTunnels, c.maxTunnelsPerIP, c.maxIdleConns,
     c.maxIdleConnsPerHost, c.maxHeaderBytes, c.authMaxFailures]
  }

  predicate ValidLimits(c: Config) {
    && c.maxConnections > 0 && c.maxTunnels > 0 && c.maxIdleConns > 0 && c.maxIdleConnsPerHost > 0
    && c.maxHeaderBytes > 0 && c.authMaxFailures > 0
    && 0 < c.maxConnectionsPerIP <= c.maxConnections
    && 0 < c.maxTunnelsPerIP <= c.maxTunnels
    && 0 <= c.http2MaxConcurrentStreams <= c.maxTunnelsPerIP
    && ValidPorts(c.blockedPorts)
  }

  predicate ValidPorts(ports: seq<int>) {
    && (forall i :: 0 <= i < |ports| ==> 1 <= ports[i] <= 65535)
    && (forall i, j :: 0 <= i < j < |ports| ==> ports[i] != ports[j])
  }

  method ValidatePorts(ports: seq<int>) returns (err: Option<LimitError>)
    ensures err.None? <==> ValidPorts(ports)
  {
    var seen: set<int> := {};
    for i := 0 to |ports|
      invariant ValidPorts(ports[..i])
      invariant forall p :: p in seen <==> p in ports[..i]
    {
      var port := ports[i];
      if port < 1 || port > 65535 {
        return Some(PortInvalid(port));
      }
      if port in seen {
        return Some(PortRepeated(port));
      }
      seen := seen + {port};
    }
    return None;
  }

  /** The checks in the order of validateConfig accept exactly the valid limits. */
  method ValidateLimits(c: Config) returns (err: Option<LimitError>)
    ensures err.None? <==> ValidLimits(c)
  {
    var limits := PositiveLimits(c);
    for i := 0 to |limits|
      invariant forall j :: 0 <= j < i ==> limits[j] > 0
    {
      if limits[i] <= 0 {
        return Some(NotPositive(i));
      }
    }
    assert limits[0] > 0 && limits[1] > 0 && limits[2] > 0 && limits[3] > 0;
    assert limits[4] > 0 && limits[5] > 0 && limits[6] > 0 && limits[7] > 0;
    if c.maxConnectionsPerIP > c.maxConnections || c.maxTunnelsPerIP > c.maxTunnels {
      return Some(PerIPTooLarge);
    }
    if c.http2MaxConcurrentStreams < 0 {
      return Some(StreamsInvalid);
    }
    if c.http2MaxConcurrentStreams > 0
       && (c.http2MaxConcurrentStreams > c.maxTunnels || c.http2MaxConcurrentStreams > c.maxTunnelsPerIP) {
      return Some(StreamsInvalid);
    }
    err := ValidatePorts(c.blockedPorts);
  }

  /** effectiveHTTP2MaxConcurrentStreams */
  function EffectiveStreams(c: Config): int {
    if c.http2MaxConcurrentStreams > 0 then c.http2MaxConcurrentStreams
    else if c.maxTunnels <= c.maxTunnelsPerIP then c.maxTunnels else c.maxTunnelsPerIP
  }

  lemma {:induction false} OpenForAtMostOpen(tickets: seq<Ticket>, key: Key)
    ensures OpenFor(tickets, key) <= Open(tickets)
  {
    if tickets != [] {
      OpenForAtMostOpen(tickets[1..], key);
    }
  }

  /** The stream limit of a validated configuration is usable and lies within both tunnel limits, so a client
      connection that keeps to it is never refused a tunnel while all open tickets are its streams. */
  lemma StreamsWithinLimitAreGranted(c: Config, ops: seq<Op>, key: Key)
    requires ValidLimits(c)
    ensures 1 <= EffectiveStreams(c) <= c.maxTunnels && EffectiveStreams(c) <= c.maxTunnelsPerIP
    ensures var l := Limits(c.maxTunnels, c.maxTunnelsPerIP);
            var w := DoAll(l, START, ops);
            Open(w.tickets) < EffectiveStreams(c) ==> Granted(l, w, Acquire(key))
  {
    var l := Limits(c.maxTunnels, c.maxTunnelsPerIP);
    RefusedOnlyWhenFull(l, ops, key);
    OpenForAtMostOpen(DoAll(l, START, ops).tickets, Named(key));
  }

  /** A configured stream limit is used as it is; otherwise it is the largest one within both tunnel limits. */
  lemma EffectiveStreamsMeans(c: Config, n: int)
    requires ValidLimits(c)
    ensures c.http2MaxConcurrentStreams != 0 ==> EffectiveStreams(c) == c.http2MaxConcurrentStreams
    ensures c.http2MaxConcurrentStreams == 0 ==>
              (n <= EffectiveStreams(c) <==> n <= c.maxTunnels && n <= c.maxTunnelsPerIP)
  {
  }
}
