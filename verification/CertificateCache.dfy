/**
 The certificate reloader of internal/proxy/certificate.go: a cache that looks at the files at most once per
 interval and keeps the last valid pair. What a load finds on disk is arbitrary: a valid pair, or an error.
 The fingerprint is any injective function of the pair.
 */
module CertificateCache {
  import opened Options

  /** What is on disk: Some(pair) when it can be read and parsed. */
  type Snapshot<P> = Option<P>

  datatype Cache<P, F> = Cache(nextCheck: int, certificate: P, fingerprint: F)

  /** A TLS handshake: the time it reads and what a load would find. */
  datatype Handshake<P> = Handshake(now: int, disk: Snapshot<P>)

  ghost predicate Injective<P(!new), F(!new)>(hash: P -> F) {
    forall x, y :: hash(x) == hash(y) ==> x == y
  }

  function Loaded<P, F>(hash: P -> F, interval: int, now: int, pair: P): Cache<P, F> {
    Cache(now + interval, pair, hash(pair))
  }

  function Get<P, F(==)>(hash: P -> F, interval: int, c: Cache<P, F>, h: Handshake<P>): Cache<P, F> {
    if h.now < c.nextCheck then c
    else
      var c1 := c.(nextCheck := h.now + interval);
      if h.disk.None? || hash(h.disk.value) == c.fingerprint then c1
      else c1.(certificate := h.disk.value, fingerprint := hash(h.disk.value))
  }

  class CertificateReloader<P, F(==)> {
    const hash: P -> F
    const interval: int
    var nextCheck: int
    var certificate: P
    var fingerprint: F

    ghost function View(): Cache<P, F>
      reads this
    {
      Cache(nextCheck, certificate, fingerprint)
    }

    constructor (hash: P -> F, interval: int, now: int, pair: P)
      ensures this.hash == hash && this.interval == interval && View() == Loaded(hash, interval, now, pair)
    {
      this.hash := hash;
      this.interval := interval;
      nextCheck := now + interval;
      certificate := pair;
      fingerprint := hash(pair);
    }

    method GetCertificate(h: Handshake<P>) returns (served: P)
      modifies this
      ensures View() == Get(hash, interval, old(View()), h) && served == View().certificate
    {
      if h.now < nextCheck {
        return certificate;
      }
      nextCheck := h.now + interval;
      if h.disk.None? {
        return certificate;
      }
      var found := hash(h.disk.value);
      if found == fingerprint {
        return certificate;
      }
      certificate, fingerprint := h.disk.value, found;
      return certificate;
    }
  }

  // ---------------------------------------------------------------- runs

  function GetAll<P, F(==)>(hash: P -> F, interval: int, c: Cache<P, F>, hs: seq<Handshake<P>>): Cache<P, F>
    decreases hs
  {
    if hs == [] then c else GetAll(hash, interval, Get(hash, interval, c, hs[0]), hs[1..])
  }

  predicate Ordered<P>(hs: seq<Handshake<P>>, from: int) {
    hs == [] || (from <= hs[0].now && Ordered(hs[1..], hs[0].now))
  }

  /** The handshakes that load from disk, when the last load was at `last`: each comes at least one interval
      after the one before. */
  function Loads<P>(interval: int, last: int, hs: seq<Handshake<P>>): seq<Handshake<P>>
    decreases hs
  {
    if hs == [] then []
    else if hs[0].now - last < interval then Loads(interval, last, hs[1..])
    else [hs[0]] + Loads(interval, hs[0].now, hs[1..])
  }

  /** The most recent valid pair among the loads, or the one before them. */
  function LastValid<P>(pair: P, loads: seq<Handshake<P>>): P
    decreases loads
  {
    if loads == [] then pair
    else LastValid(if loads[0].disk.Some? then loads[0].disk.value else pair, loads[1..])
  }

  function LastLoad<P>(last: int, loads: seq<Handshake<P>>): int
    decreases loads
  {
    if loads == [] then last else LastLoad(loads[0].now, loads[1..])
  }

  lemma {:induction false} CacheFollowsLoads<P(!new), F(!new)>(
      hash: P -> F, interval: int, c: Cache<P, F>, last: int, hs: seq<Handshake<P>>)
    requires Injective(hash)
    requires c.nextCheck == last + interval && c.fingerprint == hash(c.certificate)
    ensures var loads := Loads(interval, last, hs);
            GetAll(hash, interval, c, hs) ==
            Loaded(hash, interval, LastLoad(last, loads), LastValid(c.certificate, loads))
    decreases hs
  {
    if hs != [] {
      var c1 := Get(hash, interval, c, hs[0]);
      CacheFollowsLoads(hash, interval, c1, c1.nextCheck - interval, hs[1..]);
    }
  }

  /** After any handshakes, the served pair is the most recent valid one among the loads. */
  lemma ServesLastValid<P(!new), F(!new)>(hash: P -> F, interval: int, start: int, pair: P, hs: seq<Handshake<P>>)
    requires Injective(hash)
    ensures GetAll(hash, interval, Loaded(hash, interval, start, pair), hs).certificate
            == LastValid(pair, Loads(interval, start, hs))
  {
    CacheFollowsLoads(hash, interval, Loaded(hash, interval, start, pair), start, hs);
  }

  /** Disk access is bounded: the i-th load comes at least i + 1 intervals after the first one. */
  lemma {:induction false} LoadsAreSpaced<P>(interval: int, start: int, hs: seq<Handshake<P>>, i: nat)
    requires i < |Loads(interval, start, hs)|
    ensures Loads(interval, start, hs)[i].now >= start + (i + 1) * interval
    decreases hs
  {
    if hs[0].now - start < interval {
      LoadsAreSpaced(interval, start, hs[1..], i);
    } else if i > 0 {
      LoadsAreSpaced(interval, hs[0].now, hs[1..], i - 1);
    }
  }

  /** A handshake is never served from a look at the disk that is a whole interval old. */
  lemma {:induction false} LastLoadIsRecent<P>(interval: int, start: int, hs: seq<Handshake<P>>)
    requires interval > 0 && hs != [] && Ordered(hs, start)
    ensures var t := LastLoad(start, Loads(interval, start, hs));
            t <= hs[|hs| - 1].now < t + interval
    decreases hs
  {
    var last := if hs[0].now - start < interval then start else hs[0].now;
    if |hs| > 1 {
      LastLoadIsRecent(interval, last, hs[1..]);
    }
  }

  /** Every load from `since` on finds `pair`. */
  predicate OnDiskSince<P(==)>(hs: seq<Handshake<P>>, since: int, pair: P) {
    forall i :: 0 <= i < |hs| && hs[i].now >= since ==> hs[i].disk == Some(pair)
  }

  lemma {:induction false} NewPairOnceLoaded<P>(
      interval: int, last: int, cached: P, hs: seq<Handshake<P>>, since: int, pair: P)
    requires OnDiskSince(hs, since, pair)
    requires last >= since ==> cached == pair
    ensures LastLoad(last, Loads(interval, last, hs)) >= since ==> LastValid(cached, Loads(interval, last, hs)) == pair
    decreases hs
  {
    if hs != [] {
      var h := hs[0];
      if h.now - last < interval {
        NewPairOnceLoaded(interval, last, cached, hs[1..], since, pair);
      } else {
        NewPairOnceLoaded(interval, h.now, if h.disk.Some? then h.disk.value else cached, hs[1..], since, pair);
      }
    }
  }

  /** A pair put on disk is served at the latest one interval later. */
  lemma NewPairWithinInterval<P(!new), F(!new)>(
      hash: P -> F, interval: int, start: int, before: P, hs: seq<Handshake<P>>, since: int, pair: P)
    requires Injective(hash) && interval > 0
    requires hs != [] && Ordered(hs, start) && start < since
    requires OnDiskSince(hs, since, pair)
    requires hs[|hs| - 1].now >= since + interval
    ensures GetAll(hash, interval, Loaded(hash, interval, start, before), hs).certificate == pair
  {
    ServesLastValid(hash, interval, start, before, hs);
    LastLoadIsRecent(interval, start, hs);
    NewPairOnceLoaded(interval, start, before, hs, since, pair);
  }
}
