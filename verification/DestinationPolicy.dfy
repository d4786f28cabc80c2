/**
 The destination policy of internal/proxy/acl.go and the dial paths of internal/proxy/server.go: which
 addresses are approved for a destination, and that no path dials any other.

 Addresses are parsed and zone-free; what the resolver answers and which dials succeed is arbitrary.
 */
module DestinationPolicy {
  import opened Options

  datatype Addr = V4(n: int) | V6(n: int) {
    predicate Valid() { 0 <= n < if V4? then 0x1_0000_0000 else 0x1_0000_0000_0000_0000_0000_0000_0000_0000 }
  }

  /** netip.Addr.Unmap: an IPv4-mapped IPv6 address becomes the IPv4 address. */
  function Unmap(a: Addr): (u: Addr)
    ensures a.Valid() ==> u.Valid()
  {
    if a.V6? && a.n / 0x1_0000_0000 == 0xFFFF then V4(a.n % 0x1_0000_0000) else a
  }

  // ---------------------------------------------------------------- checkDestinationIP

  function Octet(a: Addr, i: int): int
    requires a.V4? && 0 <= i < 4
  {
    if i == 0 then a.n / 0x100_0000
    else if i == 1 then a.n / 0x1_0000 % 256
    else if i == 2 then a.n / 256 % 256
    else a.n % 256
  }

  /** The first 16 bits of an IPv6 address. */
  function Head(a: Addr): int {
    a.n / 0x1_0000_0000_0000_0000_0000_0000_0000
  }

  predicate IsUnspecified(a: Addr) { a.n == 0 }

  predicate IsLoopback(a: Addr) { if a.V4? then Octet(a, 0) == 127 else a.n == 1 }

  predicate IsMulticast(a: Addr) { if a.V4? then Octet(a, 0) / 16 == 0xE else Head(a) / 256 == 0xFF }

  predicate IsLinkLocalUnicast(a: Addr) {
    if a.V4? then Octet(a, 0) == 169 && Octet(a, 1) == 254 else Head(a) / 64 == 0xFE80 / 64
  }

  predicate IsLinkLocalMulticast(a: Addr) {
    if a.V4? then Octet(a, 0) == 224 && Octet(a, 1) == 0 && Octet(a, 2) == 0
    else Head(a) / 256 == 0xFF && Head(a) % 16 == 2
  }

  predicate IsPrivate(a: Addr) {
    if a.V4? then
      || Octet(a, 0) == 10
      || (Octet(a, 0) == 172 && Octet(a, 1) / 16 == 1)
      || (Octet(a, 0) == 192 && Octet(a, 1) == 168)
    else Head(a) / 512 == 0xFC00 / 512
  }

  predicate IsGlobalUnicast(a: Addr) {
    && !(a.V4? && (a.n == 0 || a.n == 0xFFFF_FFFF))
    && !(a.V6? && a.n == 0)
    && !IsLoopback(a) && !IsMulticast(a) && !IsLinkLocalUnicast(a)
  }

  /** A prefix by its first address and its number of addresses, a power of two. */
  datatype Prefix = Prefix(v4: bool, base: int, size: int)

  predicate Contains(p: Prefix, a: Addr)
    requires p.size > 0
  {
    p.v4 == a.V4? && a.n / p.size == p.base / p.size
  }

  const RESERVED: seq<Prefix> := [
    Prefix(true, 0x0000_0000, 0x100_0000),    // 0.0.0.0/8
    Prefix(true, 0x6440_0000, 0x40_0000),     // 100.64.0.0/10
    Prefix(true, 0xC000_0000, 0x100),         // 192.0.0.0/24
    Prefix(true, 0xC000_0200, 0x100),         // 192.0.2.0/24
    Prefix(true, 0xC612_0000, 0x2_0000),      // 198.18.0.0/15
    Prefix(true, 0xC633_6400, 0x100),         // 198.51.100.0/24
    Prefix(true, 0xCB00_7100, 0x100),         // 203.0.113.0/24
    Prefix(true, 0xF000_0000, 0x1000_0000),   // 240.0.0.0/4
    Prefix(false, 0x2001_0DB8_0000_0000_0000_0000_0000_0000, 0x1_0000_0000_0000_0000_0000_0000)  // 2001:db8::/32
  ]

  predicate IsReserved(a: Addr) {
    exists i :: 0 <= i < |RESERVED| && Contains(RESERVED[i], a)
  }

  method CheckDestinationIP(address: Addr) returns (ok: bool)
    ensures ok == Allowed(address)
  {
    var a := Unmap(address);
    if !IsGlobalUnicast(a) || IsPrivate(a) || IsLoopback(a) || IsLinkLocalUnicast(a) || IsLinkLocalMulticast(a)
       || IsMulticast(a) || IsUnspecified(a) {
      return false;
    }
    for i := 0 to |RESERVED|
      invariant forall j :: 0 <= j < i ==> !Contains(RESERVED[j], a)
    {
      if Contains(RESERVED[i], a) {
        return false;
      }
    }
    return true;
  }

  predicate Allowed(address: Addr) {
    var a := Unmap(address);
    && IsGlobalUnicast(a) && !IsPrivate(a) && !IsLoopback(a) && !IsLinkLocalUnicast(a)
    && !IsLinkLocalMulticast(a) && !IsMulticast(a) && !IsUnspecified(a)
    && !IsReserved(a)
  }

  /** The refused addresses as ranges, first to last. */
  predicate Refused4(n: int) {
    || n <= 0x00FF_FFFF                  // 0.0.0.0/8
    || 0x0A00_0000 <= n <= 0x0AFF_FFFF   // 10.0.0.0/8
    || 0x6440_0000 <= n <= 0x647F_FFFF   // 100.64.0.0/10
    || 0x7F00_0000 <= n <= 0x7FFF_FFFF   // 127.0.0.0/8
    || 0xA9FE_0000 <= n <= 0xA9FE_FFFF   // 169.254.0.0/16
    || 0xAC10_0000 <= n <= 0xAC1F_FFFF   // 172.16.0.0/12
    || 0xC000_0000 <= n <= 0xC000_00FF   // 192.0.0.0/24
    || 0xC000_0200 <= n <= 0xC000_02FF   // 192.0.2.0/24
    || 0xC0A8_0000 <= n <= 0xC0A8_FFFF   // 192.168.0.0/16
    || 0xC612_0000 <= n <= 0xC613_FFFF   // 198.18.0.0/15
    || 0xC633_6400 <= n <= 0xC633_64FF   // 198.51.100.0/24
    || 0xCB00_7100 <= n <= 0xCB00_71FF   // 203.0.113.0/24
    || 0xE000_0000 <= n                  // 224.0.0.0/4 and 240.0.0.0/4
  }

  predicate Refused6(n: int) {
    || n <= 1  // ::, ::1
    || 0x2001_0DB8_0000_0000_0000_0000_0000_0000 <= n <= 0x2001_0DB8_FFFF_FFFF_FFFF_FFFF_FFFF_FFFF  // 2001:db8::/32
    || 0xFC00_0000_0000_0000_0000_0000_0000_0000 <= n <= 0xFDFF_FFFF_FFFF_FFFF_FFFF_FFFF_FFFF_FFFF  // fc00::/7
    || 0xFE80_0000_0000_0000_0000_0000_0000_0000 <= n <= 0xFEBF_FFFF_FFFF_FFFF_FFFF_FFFF_FFFF_FFFF  // fe80::/10
    || 0xFF00_0000_0000_0000_0000_0000_0000_0000 <= n  // ff00::/8
  }

  lemma Reserved4(n: int)
    requires V4(n).Valid()
    ensures IsReserved(V4(n)) <==>
            || n <= 0x00FF_FFFF || 0x6440_0000 <= n <= 0x647F_FFFF || 0xC000_0000 <= n <= 0xC000_00FF
            || 0xC000_0200 <= n <= 0xC000_02FF || 0xC612_0000 <= n <= 0xC613_FFFF || 0xC633_6400 <= n <= 0xC633_64FF
            || 0xCB00_7100 <= n <= 0xCB00_71FF || 0xF000_0000 <= n
  {
    var a := V4(n);
    assert Contains(RESERVED[0], a) <==> n <= 0x00FF_FFFF;
    assert Contains(RESERVED[1], a) <==> 0x6440_0000 <= n <= 0x647F_FFFF;
    assert Contains(RESERVED[2], a) <==> 0xC000_0000 <= n <= 0xC000_00FF;
    assert Contains(RESERVED[3], a) <==> 0xC000_0200 <= n <= 0xC000_02FF;
    assert Contains(RESERVED[4], a) <==> 0xC612_0000 <= n <= 0xC613_FFFF;
    assert Contains(RESERVED[5], a) <==> 0xC633_6400 <= n <= 0xC633_64FF;
    assert Contains(RESERVED[6], a) <==> 0xCB00_7100 <= n <= 0xCB00_71FF;
    assert Contains(RESERVED[7], a) <==> 0xF000_0000 <= n;
  }

  lemma Reserved6(n: int)
    requires V6(n).Valid()
    ensures IsReserved(V6(n)) <==>
            0x2001_0DB8_0000_0000_0000_0000_0000_0000 <= n <= 0x2001_0DB8_FFFF_FFFF_FFFF_FFFF_FFFF_FFFF
  {
    assert Contains(RESERVED[8], V6(n)) <==>
           0x2001_0DB8_0000_0000_0000_0000_0000_0000 <= n <= 0x2001_0DB8_FFFF_FFFF_FFFF_FFFF_FFFF_FFFF;
  }

  /** An address is refused exactly when it, or the IPv4 address it maps, lies in one of the listed ranges. */
  lemma AllowedIff(address: Addr)
    requires address.Valid()
    ensures Allowed(address) <==>
            match Unmap(address) case V4(n) => !Refused4(n) case V6(n) => !Refused6(n)
  {
    match Unmap(address)
    case V4(n) => Allowed4Iff(n);
    case V6(n) => Allowed6Iff(n);
  }

  lemma Allowed4Iff(n: int)
    requires V4(n).Valid()
    ensures Allowed(V4(n)) <==> !Refused4(n)
  {
    Reserved4(n);
  }

  lemma Allowed6Iff(n: int)
    requires V6(n).Valid() && Unmap(V6(n)) == V6(n)
    ensures Allowed(V6(n)) <==> !Refused6(n)
  {
    Reserved6(n);
  }

  /** An IPv4 address in its IPv6 form is the IPv4 address; every other address is left as it is. */
  lemma UnmapMeans(n: int)
    ensures V4(n).Valid() ==> Unmap(V6(0xFFFF_0000_0000 + n)) == V4(n)
    ensures V6(n).Valid() && !(0xFFFF_0000_0000 <= n <= 0xFFFF_FFFF_FFFF) ==> Unmap(V6(n)) == V6(n)
    ensures Unmap(V4(n)) == V4(n)
  {
  }

  // ---------------------------------------------------------------- approve

  /** host:port, split and parsed; Malformed when that fails or the host is empty. */
  datatype Target =
    | Malformed
    | Target(host: string, portText: string, port: Option<int>, ip: Option<Addr>)

  datatype Policy = Policy(allowPrivate: bool, blockedPorts: set<int>)

  /** What a dialer is given: an IP literal and port, or the client's own text. */
  datatype DialAddr = Literal(ip: Addr, port: int) | Verbatim(target: Target)

  datatype Verdict =
    | Approved(original: Target, addresses: seq<DialAddr>)
    | Denied
    | Invalid
    | Unresolved

  function Lower(s: string): string {
    seq(|s|, i requires 0 <= i < |s| => if 'A' <= s[i] <= 'Z' then (s[i] as int + 32) as char else s[i])
  }

  function WithoutDot(s: string): string {
    if s != "" && s[|s| - 1] == '.' then s[..|s| - 1] else s
  }

  function Normal(host: string): string { WithoutDot(Lower(host)) }

  predicate HasSuffix(s: string, suffix: string) {
    |suffix| <= |s| && s[|s| - |suffix|..] == suffix
  }

  predicate IsLocalhost(host: string) {
    Normal(host) == "localhost" || HasSuffix(Normal(host), ".localhost")
  }

  function Unmapped(answers: seq<Addr>): seq<Addr> {
    seq(|answers|, i requires 0 <= i < |answers| => Unmap(answers[i]))
  }

  /** The distinct elements, in the order of their first occurrence. */
  function Distinct<T(==)>(s: seq<T>): seq<T> {
    if s == [] then []
    else
      var before, last := Distinct(s[..|s| - 1]), s[|s| - 1];
      if last in before then before else before + [last]
  }

  function Literals(ips: seq<Addr>, port: int): seq<DialAddr> {
    seq(|ips|, i requires 0 <= i < |ips| => Literal(ips[i], port))
  }

  /** `answers` is what the resolver gives for this call, None for an error. */
  function Approve(p: Policy, t: Target, answers: Option<seq<Addr>>): Verdict {
    if t.Malformed? || t.host == "" then Invalid
    else if t.port.None? || t.port.value < 1 || t.port.value > 65535 then Invalid
    else if t.port.value in p.blockedPorts then Denied
    else if p.allowPrivate then Approved(t, [Verbatim(t)])
    else if IsLocalhost(t.host) then Denied
    else if t.ip.Some? then
      if Allowed(t.ip.value) then Approved(t, [Literal(Unmap(t.ip.value), t.port.value)]) else Denied
    else if answers.None? || answers.value == [] then Unresolved
    else if exists i :: 0 <= i < |answers.value| && !Allowed(answers.value[i]) then Denied
    else Approved(t, Literals(Distinct(Unmapped(answers.value)), t.port.value))
  }

  lemma UnmapTwice(a: Addr)
    requires a.Valid()
    ensures Unmap(Unmap(a)) == Unmap(a) && (Allowed(Unmap(a)) <==> Allowed(a))
  {
  }

  lemma DistinctNext<T>(s: seq<T>, i: nat)
    requires i < |s|
    ensures Distinct(s[..i + 1]) ==
            if s[i] in Distinct(s[..i]) then Distinct(s[..i]) else Distinct(s[..i]) + [s[i]]
  {
    assert s[..i + 1][..i] == s[..i];
  }

  lemma LiteralsAppend(ips: seq<Addr>, ip: Addr, port: int)
    ensures Literals(ips + [ip], port) == Literals(ips, port) + [Literal(ip, port)]
  {
  }

  /** approve's resolver branch, with the list and the seen set it builds. */
  method ApproveAnswers(t: Target, port: int, answers: seq<Addr>) returns (v: Verdict)
    requires answers != [] && forall i :: 0 <= i < |answers| ==> answers[i].Valid()
    ensures v == if exists i :: 0 <= i < |answers| && !Allowed(answers[i]) then Denied
                 else Approved(t, Literals(Distinct(Unmapped(answers)), port))
  {
    var addresses: seq<DialAddr> := [];
    var seen: set<Addr> := {};
    ghost var all, kept: seq<Addr> := Unmapped(answers), [];
    for i := 0 to |answers|
      invariant forall j :: 0 <= j < i ==> Allowed(answers[j])
      invariant kept == Distinct(all[..i]) && addresses == Literals(kept, port)
      invariant forall a :: a in seen <==> a in kept
    {
      var ip := Unmap(answers[i]);
      var ok := CheckDestinationIP(ip);
      assert ok <==> Allowed(answers[i]) by {
        UnmapTwice(answers[i]);
      }
      if !ok {
        return Denied;
      }
      DistinctNext(all, i);
      if ip !in seen {
        seen := seen + {ip};
        LiteralsAppend(kept, ip, port);
        addresses := addresses + [Literal(ip, port)];
        kept := kept + [ip];
      }
    }
    assert all[..|answers|] == all;
    return Approved(t, addresses);
  }

  // ---------------------------------------------------------------- what Distinct means

  predicate FirstAt<T(==)>(s: seq<T>, x: T, i: int) {
    0 <= i < |s| && s[i] == x && forall j :: 0 <= j < i ==> s[j] != x
  }

  /** `at` gives, in increasing order, where each element of d first occurs in s. */
  predicate FirstsIn<T(==)>(s: seq<T>, d: seq<T>, at: seq<int>) {
    && |at| == |d|
    && (forall i :: 0 <= i < |at| ==> FirstAt(s, d[i], at[i]))
    && (forall i, j :: 0 <= i < j < |at| ==> at[i] < at[j])
  }

  lemma FirstsInAppend<T>(s: seq<T>, n: nat, d: seq<T>, at: seq<int>)
    requires FirstsIn(s, d, at) && n < |s| && FirstAt(s, s[n], n)
    requires forall i :: 0 <= i < |at| ==> at[i] < n
    ensures FirstsIn(s, d + [s[n]], at + [n])
  {
    var d1, at1 := d + [s[n]], at + [n];
    assert forall i :: 0 <= i < |at1| ==> FirstAt(s, d1[i], at1[i]);
  }

  lemma {:induction false} DistinctCovers<T>(s: seq<T>, k: nat)
    requires k < |s|
    ensures s[k] in Distinct(s)
    decreases |s|
  {
    if k < |s| - 1 {
      DistinctCovers(s[..|s| - 1], k);
    }
  }

  /** Distinct keeps every element, once, in the order of first occurrence. */
  lemma {:induction false} DistinctOrder<T>(s: seq<T>) returns (at: seq<int>)
    ensures FirstsIn(s, Distinct(s), at)
    ensures forall k :: 0 <= k < |s| ==> s[k] in Distinct(s)
    decreases |s|
  {
    at := [];
    if s != [] {
      var n := |s| - 1;
      at := DistinctOrder(s[..n]);
      if s[n] !in Distinct(s[..n]) {
        assert FirstAt(s, s[n], n);
        FirstsInAppend(s, n, Distinct(s[..n]), at);
        at := at + [n];
      }
    }
    forall k | 0 <= k < |s| ensures s[k] in Distinct(s) {
      DistinctCovers(s, k);
    }
  }

  // ---------------------------------------------------------------- dialing

  predicate Matches(a: Target, b: Target) {
    !a.Malformed? && !b.Malformed? && a.portText == b.portText && Normal(a.host) == Normal(b.host)
  }

  /** dialApproved: tries the addresses in order until one answers or the context is over. */
  method DialApproved(addresses: seq<DialAddr>, answers: nat -> bool, contextOver: nat -> bool)
    returns (connected: Option<nat>, tried: seq<DialAddr>)
    ensures tried <= addresses
    ensures connected.Some? ==>
              && |tried| == connected.value + 1
              && answers(connected.value)
              && forall i :: 0 <= i < connected.value ==> !answers(i)
    ensures connected.None? ==>
              && (forall i :: 0 <= i < |tried| ==> !answers(i))
              && (|tried| == |addresses| || (tried != [] && contextOver(|tried| - 1)))
  {
    tried := [];
    for i := 0 to |addresses|
      invariant tried == addresses[..i] && forall j :: 0 <= j < i ==> !answers(j)
    {
      tried := tried + [addresses[i]];
      if answers(i) {
        return Some(i), tried;
      }
      if contextOver(i) {
        return None, tried;
      }
    }
    return None, tried;
  }

  /** Every way the proxy comes to dial: a CONNECT target dialed directly, the transport's DialContext with
      the approval its request carries, and the address of an upstream proxy. `answers` is the resolver's
      answer to this lookup, `before` that to the one made when the request was approved. */
  datatype Path =
    | Connect(target: Target, before: Option<seq<Addr>>)
    | Transport(target: Target, before: Option<seq<Addr>>, address: Target, answers: Option<seq<Addr>>)
    | Upstream(address: Target, answers: Option<seq<Addr>>)

  function Candidates(v: Verdict): seq<DialAddr> {
    if v.Approved? then v.addresses else []
  }

  /** The addresses the dialer may be given on a path. */
  function DialList(p: Policy, path: Path): seq<DialAddr> {
    match path
    case Connect(t, before) => Candidates(Approve(p, t, before))
    case Upstream(a, answers) => Candidates(Approve(p, a, answers))
    case Transport(t, before, a, answers) =>
      var v := Approve(p, t, before);
      if v.Approved? then
        if Matches(v.original, a) then v.addresses else Candidates(Approve(p, a, answers))
      else []  // the request is refused before it reaches the transport
  }

  predicate ValidAnswers(answers: Option<seq<Addr>>) {
    answers.Some? ==> forall i :: 0 <= i < |answers.value| ==> answers.value[i].Valid()
  }

  predicate ValidTarget(t: Target) {
    t.Target? && t.ip.Some? ==> t.ip.value.Valid()
  }

  predicate ValidPath(path: Path) {
    match path
    case Connect(t, b) => ValidTarget(t) && ValidAnswers(b)
    case Upstream(a, n) => ValidTarget(a) && ValidAnswers(n)
    case Transport(t, b, a, n) => ValidTarget(t) && ValidTarget(a) && ValidAnswers(b) && ValidAnswers(n)
  }

  /** An IP literal outside every refused range, with a port that is not blocked. */
  predicate Safe(p: Policy, d: DialAddr) {
    && d.Literal? && d.ip.Valid() && Allowed(d.ip) && Unmap(d.ip) == d.ip
    && 1 <= d.port <= 65535 && d.port !in p.blockedPorts
  }

  /** What approval means when private destinations are not allowed: a nonempty list of safe addresses, all
      for the requested port; one refused answer refuses the destination. */
  lemma ApprovedIsSafe(p: Policy, t: Target, answers: Option<seq<Addr>>)
    requires !p.allowPrivate && ValidTarget(t) && ValidAnswers(answers)
    ensures var v := Approve(p, t, answers);
            v.Approved? ==>
              && v.original == t && v.addresses != []
              && forall i :: 0 <= i < |v.addresses| ==> Safe(p, v.addresses[i]) && Some(v.addresses[i].port) == t.port
  {
    var v := Approve(p, t, answers);
    if v.Approved? && t.ip.None? {
      var at := DistinctOrder(Unmapped(answers.value));
      forall i | 0 <= i < |v.addresses| ensures Safe(p, v.addresses[i]) {
        UnmapTwice(answers.value[at[i]]);
      }
    }
  }

  predicate WellFormed(t: Target) {
    t.Target? && t.host != "" && t.port.Some? && 1 <= t.port.value <= 65535
  }

  /** The addresses a destination stands for: its own literal, or the answers of the resolver. */
  function Destinations(t: Target, answers: Option<seq<Addr>>): seq<Addr> {
    if t.Malformed? then [] else if t.ip.Some? then [t.ip.value] else if answers.Some? then answers.value else []
  }

  /** No address the destination stands for is refused, and there is one. */
  predicate AllAllowed(t: Target, answers: Option<seq<Addr>>) {
    && Destinations(t, answers) != []
    && forall i :: 0 <= i < |Destinations(t, answers)| ==> Allowed(Destinations(t, answers)[i])
  }

  lemma ApprovedWhen(p: Policy, t: Target, answers: Option<seq<Addr>>)
    ensures Approve(p, t, answers).Approved? <==>
              && WellFormed(t) && t.port.value !in p.blockedPorts
              && (p.allowPrivate || (!IsLocalhost(t.host) && AllAllowed(t, answers)))
    ensures Approve(p, t, answers).Invalid? <==> !WellFormed(t)
  {
    if !t.Malformed? && t.ip.Some? {
      assert Destinations(t, answers)[0] == t.ip.value;
    }
  }

  lemma ApprovedAs(p: Policy, t: Target, answers: Option<seq<Addr>>)
    requires Approve(p, t, answers).Approved?
    ensures p.allowPrivate ==> Approve(p, t, answers) == Approved(t, [Verbatim(t)])
    ensures !p.allowPrivate ==>
              Approve(p, t, answers) ==
              Approved(t, Literals(Distinct(Unmapped(Destinations(t, answers))), t.port.value))
  {
    if t.ip.Some? {
      DistinctOfOne(Unmap(t.ip.value));
      assert Unmapped([t.ip.value]) == [Unmap(t.ip.value)];
    }
  }

  /** A destination is approved exactly if it is well formed, its port is not blocked, and, unless private
      destinations are allowed, it is not localhost, stands for some address, and for no refused one. It is then dialed
      as the client wrote it, or at each of its addresses once. */
  lemma ApprovedIff(p: Policy, t: Target, answers: Option<seq<Addr>>)
    ensures Approve(p, t, answers).Approved? <==>
              && WellFormed(t) && t.port.value !in p.blockedPorts
              && (p.allowPrivate || (!IsLocalhost(t.host) && AllAllowed(t, answers)))
    ensures Approve(p, t, answers).Approved? && p.allowPrivate ==>
              Approve(p, t, answers) == Approved(t, [Verbatim(t)])
    ensures Approve(p, t, answers).Approved? && !p.allowPrivate ==>
              Approve(p, t, answers) ==
              Approved(t, Literals(Distinct(Unmapped(Destinations(t, answers))), t.port.value))
    ensures Approve(p, t, answers).Invalid? <==> !WellFormed(t)
    ensures Approve(p, t, answers).Unresolved? <==>
              && WellFormed(t) && t.port.value !in p.blockedPorts && !p.allowPrivate && !IsLocalhost(t.host)
              && Destinations(t, answers) == []
  {
    ApprovedWhen(p, t, answers);
    if Approve(p, t, answers).Approved? {
      ApprovedAs(p, t, answers);
    }
  }

  lemma DistinctOfOne<T>(x: T)
    ensures Distinct([x]) == [x]
  {
    assert [x][..0] == [];
  }

  /** Localhost is refused in any letter case, with or without a final dot, and so is every name under it. */
  lemma LocalhostInAnyForm(host: string, prefix: string)
    requires Lower(host) == "localhost"
    ensures IsLocalhost(host) && IsLocalhost(host + ".")
    ensures IsLocalhost(prefix + "." + host) && IsLocalhost(prefix + "." + host + ".")
  {
    assert |Lower(host)| == |host| == 9;
    LowerConcat(host, ".");
    LowerConcat(prefix + ".", host);
    LowerConcat(prefix + "." + host, ".");
    LowerConcat(prefix, ".");
    var name := prefix + "." + host;
    assert Lower(name) == Lower(prefix) + ".localhost";
    assert Lower(name)[|Lower(name)| - 1] == 't' && Lower(host)[8] == 't';
    assert (Lower(host) + ".")[..9] == Lower(host);
    assert (Lower(name) + ".")[..|name|] == Lower(name);
    assert Lower(name)[|name| - 10..] == ".localhost";
  }

  /** Lower-casing changes nothing but the capital letters A to Z. */
  lemma LocalhostInAnyCase(host: string)
    requires |host| == 9
    requires forall i :: 0 <= i < 9 ==> host[i] == "localhost"[i] || host[i] == "LOCALHOST"[i]
    ensures Lower(host) == "localhost"
  {
  }

  /** A request that was approved for the address the transport dials goes to the addresses approved then, whatever the
      resolver answers now; one for another host or port is approved anew; and a refused request dials nothing. */
  lemma TransportUsesApproval(p: Policy, t: Target, before: Option<seq<Addr>>, a: Target, answers: Option<seq<Addr>>)
    ensures !Approve(p, t, before).Approved? ==>
              DialList(p, Connect(t, before)) == [] && DialList(p, Transport(t, before, a, answers)) == []
    ensures Approve(p, t, before).Approved? ==>
              && DialList(p, Connect(t, before)) == Approve(p, t, before).addresses
              && (a.Target? && a.portText == t.portText && (a.host == t.host || Normal(a.host) == Normal(t.host)) ==>
                    DialList(p, Transport(t, before, a, answers)) == Approve(p, t, before).addresses)
              && (a.Malformed? || a.portText != t.portText || Normal(a.host) != Normal(t.host) ==>
                    DialList(p, Transport(t, before, a, answers)) == DialList(p, Connect(a, answers)))
    ensures DialList(p, Upstream(a, answers)) == DialList(p, Connect(a, answers))
  {
    ApprovedIff(p, t, before);
  }

  lemma LowerConcat(a: string, b: string)
    ensures Lower(a + b) == Lower(a) + Lower(b)
  {
  }

  /** With private destinations disallowed, whatever the resolver answers on each call, every address that
      any path hands to the dialer is a safe literal. */
  lemma OnlySafeAddressesDialed(p: Policy, path: Path, i: nat)
    requires !p.allowPrivate && ValidPath(path)
    requires i < |DialList(p, path)|
    ensures Safe(p, DialList(p, path)[i])
  {
    match path
    case Connect(t, before) => ApprovedIsSafe(p, t, before);
    case Upstream(a, answers) => ApprovedIsSafe(p, a, answers);
    case Transport(t, before, a, answers) =>
      ApprovedIsSafe(p, t, before);
      ApprovedIsSafe(p, a, answers);
  }
}
