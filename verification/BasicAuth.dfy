/**
 Proxy authentication: Authenticate of internal/auth/basic.go over the failure limiter, and the
 Proxy-Authorization value that buildConnectRequest of internal/proxy/upstream.go writes for the next proxy.
 The hash is any injective function.
 */
module BasicAuth {
  import opened Options
  import opened GoBytes
  import opened FailureLimiter
  import opened FailureBudget
  import Base64

  /** The configured pair, kept as hashes. */
  datatype Account<H> = Account(enabled: bool, userHash: H, passHash: H)

  function NewAccount<H>(hash: Bytes -> H, user: Bytes, pass: Bytes): Account<H> {
    Account(user != [] || pass != [], hash(user), hash(pass))
  }

  ghost predicate Injective<H(!new)>(hash: Bytes -> H) {
    forall x, y :: hash(x) == hash(y) ==> x == y
  }

  // ---------------------------------------------------------------- credentials

  /** strings.EqualFold(scheme, "Basic"): besides the ASCII letters, U+017F folds to s. */
  predicate IsBasic(scheme: Bytes) {
    || (|scheme| == 5 && Folds(scheme[0], 98) && Folds(scheme[1], 97) && Folds(scheme[2], 115)
        && Folds(scheme[3], 105) && Folds(scheme[4], 99))
    || (|scheme| == 6 && Folds(scheme[0], 98) && Folds(scheme[1], 97) && scheme[2] == 0xC5 && scheme[3] == 0xBF
        && Folds(scheme[4], 105) && Folds(scheme[5], 99))
  }

  predicate Folds(b: byte, lower: byte) {
    b == lower || b + 32 == lower
  }

  predicate IsLetter(b: byte) {
    65 <= b <= 90 || 97 <= b <= 122
  }

  /** Equal up to the case of ASCII letters. */
  predicate EqualUpToCase(a: Bytes, b: Bytes) {
    |a| == |b| && forall i :: 0 <= i < |a| ==>
      a[i] == b[i] || (IsLetter(a[i]) && IsLetter(b[i]) && (a[i] == b[i] + 32 || b[i] == a[i] + 32))
  }

  /** Exactly "Basic" in any letter case is read, where a long s (U+017F) also counts as an s. */
  lemma SchemeInAnyCase(scheme: Bytes)
    ensures IsBasic(scheme) <==>
            || EqualUpToCase(scheme, Ascii("Basic"))
            || (|scheme| == 6 && scheme[2..4] == [0xC5, 0xBF]
                && EqualUpToCase(scheme[..2] + [115] + scheme[4..], Ascii("Basic")))
  {
    var basic := Ascii("Basic");
    assert basic[0] == 66 && basic[1] == 97 && basic[2] == 115 && basic[3] == 105 && basic[4] == 99;
    if |scheme| == 6 {
      var plain := scheme[..2] + [115] + scheme[4..];
      assert plain[0] == scheme[0] && plain[1] == scheme[1] && plain[2] == 115;
      assert plain[3] == scheme[4] && plain[4] == scheme[5];
      assert scheme[2..4] == [scheme[2], scheme[3]];
    }
  }

  datatype Pair = Pair(user: Bytes, pass: Bytes)

  /** strings.SplitN(payload, ":", 2) */
  function SplitPair(payload: Bytes): Option<Pair> {
    var i := Index(payload, COLON);
    if i == |payload| then None else Some(Pair(payload[..i], payload[i + 1..]))
  }

  function ParseCredentials(auth: Bytes): Option<Pair> {
    var i := Index(auth, SPACE);
    if i == |auth| || !IsBasic(auth[..i]) then None
    else
      var payload := Base64.Decode(TrimSpace(auth[i + 1..]));
      if payload.None? then None else SplitPair(payload.value)
  }

  const BASIC: Bytes := [66, 97, 115, 105, 99, 32]  // "Basic "

  /** The header value of buildConnectRequest. */
  function CredentialsValue(user: Bytes, pass: Bytes): Bytes {
    BASIC + Base64.Encode(user + [COLON] + pass)
  }

  predicate Matches<H(==)>(hash: Bytes -> H, a: Account<H>, auth: Bytes) {
    var pair := ParseCredentials(auth);
    pair.Some? && hash(pair.value.user) == a.userHash && hash(pair.value.pass) == a.passHash
  }

  lemma IndexOfColon(user: Bytes, rest: Bytes)
    requires COLON !in user
    ensures Index(user + [COLON] + rest, COLON) == |user|
  {
    var all := user + [COLON] + rest;
    assert all[|user|] == COLON;
  }

  lemma SpaceInBasic(text: Bytes)
    ensures Index(BASIC + text, SPACE) == 5 && IsBasic((BASIC + text)[..5]) && (BASIC + text)[6..] == text
  {
    var s := BASIC + text;
    assert s[0] == 66 && s[1] == 97 && s[2] == 115 && s[3] == 105 && s[4] == 99 && s[5] == SPACE;
  }

  /** What a proxy reads from the value written for (user, pass): the text split at its first colon. */
  lemma CredentialsParse(user: Bytes, pass: Bytes)
    ensures ParseCredentials(CredentialsValue(user, pass)) == SplitPair(user + [COLON] + pass)
    ensures COLON !in user ==> ParseCredentials(CredentialsValue(user, pass)) == Some(Pair(user, pass))
  {
    var text := user + [COLON] + pass;
    SpaceInBasic(Base64.Encode(text));
    Base64.TrimKeepsEncoded(text);
    Base64.RoundTrip(text);
    if COLON !in user {
      IndexOfColon(user, pass);
      assert text[..|user|] == user && text[|user| + 1..] == pass;
    }
  }

  /** For a username without a colon, the value is accepted exactly for the configured pair, whatever the
      passwords contain. */
  lemma CredentialRoundTrip<H(!new)>(hash: Bytes -> H, cfgUser: Bytes, cfgPass: Bytes, user: Bytes, pass: Bytes)
    requires Injective(hash)
    requires COLON !in user
    ensures Matches(hash, NewAccount(hash, cfgUser, cfgPass), CredentialsValue(user, pass))
            <==> user == cfgUser && pass == cfgPass
  {
    CredentialsParse(user, pass);
  }

  /** An account can be used by some header if and only if its username holds no colon. */
  lemma AccountUsableIff<H(!new)>(hash: Bytes -> H, cfgUser: Bytes, cfgPass: Bytes)
    requires Injective(hash)
    ensures (exists auth :: Matches(hash, NewAccount(hash, cfgUser, cfgPass), auth)) <==> COLON !in cfgUser
  {
    if COLON !in cfgUser {
      CredentialRoundTrip(hash, cfgUser, cfgPass, cfgUser, cfgPass);
    } else {
      forall auth ensures !Matches(hash, NewAccount(hash, cfgUser, cfgPass), auth) {
        assert var pair := ParseCredentials(auth); pair.Some? ==> COLON !in pair.value.user;
      }
    }
  }

  // ---------------------------------------------------------------- Authenticate

  /** One call: the client's key, the header ([] when absent), and the clock at the check and at the
      recording. */
  datatype Request = Request(key: Key, auth: Bytes, checkAt: int, actAt: int)

  datatype Reply = Allowed | RateLimited(retryAfter: int) | AuthRequired

  function Serve<H(==)>(hash: Bytes -> H, a: Account<H>, c: Settings, s: State, r: Request): (State, Reply) {
    if !a.enabled then (s, Allowed)
    else
      var (s1, wait) := Step(c, s, Check(r.key, r.checkAt));
      if wait > 0 then (s1, RateLimited(RetryAfterSeconds(wait)))
      else if r.auth == [] then (s1, AuthRequired)
      else if Matches(hash, a, r.auth) then (Step(c, s1, Reset(r.key)).0, Allowed)
      else (Step(c, s1, Fail(r.key, r.actAt)).0, AuthRequired)
  }

  /** Without a configured username and password every request is let through, and the limiter is left alone. */
  lemma DisabledAllowsAll<H>(hash: Bytes -> H, user: Bytes, pass: Bytes, c: Settings, s: State, r: Request)
    ensures user == [] && pass == [] ==> Serve(hash, NewAccount(hash, user, pass), c, s, r) == (s, Allowed)
    ensures user != [] || pass != [] ==>
              NewAccount(hash, user, pass).enabled
              && (Serve(hash, NewAccount(hash, user, pass), c, s, r).1.Allowed? ==>
                    Matches(hash, NewAccount(hash, user, pass), r.auth))
  {
  }

  class Basic<H(==)> {
    const hash: Bytes -> H
    const account: Account<H>
    const failures: Limiter

    constructor (hash: Bytes -> H, user: Bytes, pass: Bytes, failures: Limiter)
      ensures this.hash == hash && account == NewAccount(hash, user, pass) && this.failures == failures
    {
      this.hash := hash;
      this.account := NewAccount(hash, user, pass);
      this.failures := failures;
    }

    method Authenticate(r: Request) returns (reply: Reply)
      modifies failures
      ensures (failures.View(), reply) == Serve(hash, account, failures.cfg, old(failures.View()), r)
    {
      if !account.enabled {
        return Allowed;
      }
      var wait := failures.RetryAfter(r.key, r.checkAt);
      if wait > 0 {
        return RateLimited(RetryAfterSeconds(wait));
      }
      if r.auth == [] {
        return AuthRequired;
      }
      var pair := ParseCredentials(r.auth);
      if pair.Some? && hash(pair.value.user) == account.userHash && hash(pair.value.pass) == account.passHash {
        failures.Forget(r.key);
        return Allowed;
      }
      failures.RecordFailure(r.key, r.actAt);
      return AuthRequired;
    }
  }

  // ---------------------------------------------------------------- runs of Authenticate

  /** How the limiter sees a request. */
  function Judge<H(==)>(hash: Bytes -> H, a: Account<H>, r: Request): Attempt {
    Attempt(r.key, if r.auth == [] then Missing else if Matches(hash, a, r.auth) then Right else Wrong,
            r.checkAt, r.actAt)
  }

  /** Authenticate makes exactly the limiter calls of its attempt, and answers from them: it lets a request
      through only with the right credentials while the key is not blocked. */
  lemma ServeMakesCalls<H>(hash: Bytes -> H, a: Account<H>, c: Settings, s: State, r: Request)
    requires a.enabled
    ensures var (s1, reply) := Serve(hash, a, c, s, r);
            var wait := Step(c, s, Check(r.key, r.checkAt)).1;
            && s1 == After(c, s, Calls(c, s, Judge(hash, a, r)))
            && (reply.Allowed? <==> wait <= 0 && Judge(hash, a, r).credentials.Right?)
            && (reply.RateLimited? <==> wait > 0)
            && (reply.RateLimited? ==> reply.retryAfter == RetryAfterSeconds(wait))
  {
    var attempt := Judge(hash, a, r);
    var calls := Calls(c, s, attempt);
    var s1 := Step(c, s, calls[0]).0;
    if |calls| > 1 {
      assert After(c, s1, calls[1..]) == Step(c, s1, calls[1]).0;
    }
  }

  function ServeAll<H(==)>(hash: Bytes -> H, a: Account<H>, c: Settings, s: State, rs: seq<Request>): State
    decreases rs
  {
    if rs == [] then s else ServeAll(hash, a, c, Serve(hash, a, c, s, rs[0]).0, rs[1..])
  }

  function JudgeAll<H(==)>(hash: Bytes -> H, a: Account<H>, rs: seq<Request>): seq<Attempt> {
    seq(|rs|, i requires 0 <= i < |rs| => Judge(hash, a, rs[i]))
  }

  lemma {:induction false} AfterConcat(c: Settings, s: State, first: seq<Op>, second: seq<Op>)
    ensures After(c, s, first + second) == After(c, After(c, s, first), second)
    decreases first
  {
    if first == [] {
      assert first + second == second;
    } else {
      assert (first + second)[1..] == first[1..] + second;
      AfterConcat(c, Step(c, s, first[0]).0, first[1..], second);
    }
  }

  lemma {:induction false} ServedRunIsCalls<H>(hash: Bytes -> H, a: Account<H>, c: Settings, s: State, rs: seq<Request>)
    requires a.enabled
    ensures ServeAll(hash, a, c, s, rs) == After(c, s, AllCalls(c, s, JudgeAll(hash, a, rs)))
    decreases rs
  {
    if rs != [] {
      var attempts := JudgeAll(hash, a, rs);
      assert attempts[1..] == JudgeAll(hash, a, rs[1..]);
      ServeMakesCalls(hash, a, c, s, rs[0]);
      var s1 := Serve(hash, a, c, s, rs[0]).0;
      ServedRunIsCalls(hash, a, c, s1, rs[1..]);
      AfterConcat(c, s, Calls(c, s, attempts[0]), AllCalls(c, s1, attempts[1..]));
    }
  }

  /** In every run of requests served one after the other, the limiter goes through exactly the calls of the
      judged attempts, and a key whose requests never carry the right credentials stays within the budget. */
  lemma ServedRunMeetsBudget<H>(
      hash: Bytes -> H, a: Account<H>, c: Settings, rs: seq<Request>, key: Key, start: int, from: int)
    requires a.enabled && c.Valid() && c.block >= c.window
    requires FailingAttempts(JudgeAll(hash, a, rs), key, start)
    ensures var calls := AllCalls(c, FRESH, JudgeAll(hash, a, rs));
            ServeAll(hash, a, c, FRESH, rs) == After(c, FRESH, calls) && MeetsBudget(c, calls, key, 1, from)
  {
    ServedRunIsCalls(hash, a, c, FRESH, rs);
    AuthenticateMeetsBudget(c, JudgeAll(hash, a, rs), key, start, from);
  }

  /** The answers to a run of requests served one after the other. */
  function Replies<H(==)>(hash: Bytes -> H, a: Account<H>, c: Settings, s: State, rs: seq<Request>): seq<Reply>
    decreases rs
  {
    if rs == [] then []
    else
      var (s1, reply) := Serve(hash, a, c, s, rs[0]);
      [reply] + Replies(hash, a, c, s1, rs[1..])
  }

  /** One request after the other, from time t to time `until`; those of `key` come before its block is over. */
  predicate TriesInTurn(rs: seq<Request>, key: Key, t: int, blockedUntil: int, until: int) {
    if rs == [] then t <= until
    else
      && t <= rs[0].checkAt <= rs[0].actAt
      && (rs[0].key == key ==> rs[0].checkAt < blockedUntil)
      && TriesInTurn(rs[1..], key, rs[0].actAt, blockedUntil, until)
  }

  /** One request while `key` is blocked: its own ones are refused, and its block is left alone. */
  lemma BlockedServe<H>(
      hash: Bytes -> H, a: Account<H>, c: Settings, s: State, r: Request, key: Key, t: int, blockedUntil: int)
    requires a.enabled && c.Valid()
    requires Blocked(s, key, blockedUntil) || (key !in s.records && t >= blockedUntil)
    requires t <= r.checkAt <= r.actAt && (r.key == key ==> r.checkAt < blockedUntil)
    ensures var (s1, reply) := Serve(hash, a, c, s, r);
            && (Blocked(s1, key, blockedUntil) || (key !in s1.records && r.actAt >= blockedUntil))
            && (r.key == key ==> reply == RateLimited(RetryAfterSeconds(blockedUntil - r.checkAt)))
  {
    var check := Check(r.key, r.checkAt);
    var s0 := Step(c, s, check).0;
    BlockStandsStill(c, s, [check], key, 1, t, blockedUntil, r.checkAt);
    assert After(c, s, [check]) == s0;
    if r.key != key {
      BlockStandsStill(c, s0, [Fail(r.key, r.actAt)], key, 1, r.checkAt, blockedUntil, r.actAt);
      BlockStandsStill(c, s0, [Reset(r.key)], key, 1, r.checkAt, blockedUntil, r.actAt);
      assert After(c, s0, [Fail(r.key, r.actAt)]) == Step(c, s0, Fail(r.key, r.actAt)).0;
      assert After(c, s0, [Reset(r.key)]) == Step(c, s0, Reset(r.key)).0;
    }
  }

  /** Every request of `key` was refused for the rest of the block. */
  predicate AllLimited(rs: seq<Request>, replies: seq<Reply>, key: Key, blockedUntil: int) {
    && |replies| == |rs|
    && forall i :: 0 <= i < |rs| && rs[i].key == key ==>
         rs[i].checkAt < blockedUntil && replies[i] == RateLimited(RetryAfterSeconds(blockedUntil - rs[i].checkAt))
  }

  lemma {:induction false} BlockedRun<H>(
      hash: Bytes -> H, a: Account<H>, c: Settings, s: State, rs: seq<Request>, key: Key, t: int, blockedUntil: int,
      until: int)
    requires a.enabled && c.Valid()
    requires Blocked(s, key, blockedUntil) || (key !in s.records && t >= blockedUntil)
    requires TriesInTurn(rs, key, t, blockedUntil, until)
    ensures AllLimited(rs, Replies(hash, a, c, s, rs), key, blockedUntil)
    ensures var after := ServeAll(hash, a, c, s, rs);
            Blocked(after, key, blockedUntil) || (key !in after.records && until >= blockedUntil)
    decreases rs
  {
    if rs != [] {
      BlockedServe(hash, a, c, s, rs[0], key, t, blockedUntil);
      var (s1, reply) := Serve(hash, a, c, s, rs[0]);
      BlockedRun(hash, a, c, s1, rs[1..], key, rs[0].actAt, blockedUntil, until);
      assert Replies(hash, a, c, s, rs) == [reply] + Replies(hash, a, c, s1, rs[1..]);
    }
  }

  /** A blocked client that keeps sending requests, with whatever credentials, is refused each time for the
      rest of the original block; when it comes back later it is refused exactly while that block lasts. */
  lemma BlockedClientIsRefused<H>(
      hash: Bytes -> H, a: Account<H>, c: Settings, s: State, rs: seq<Request>, t: int, blockedUntil: int,
      again: Request)
    requires a.enabled && c.Valid()
    requires Blocked(s, again.key, blockedUntil)
    requires TriesInTurn(rs, again.key, t, blockedUntil, again.checkAt)
    ensures AllLimited(rs, Replies(hash, a, c, s, rs), again.key, blockedUntil)
    ensures var reply := Serve(hash, a, c, ServeAll(hash, a, c, s, rs), again).1;
            if again.checkAt < blockedUntil then reply == RateLimited(RetryAfterSeconds(blockedUntil - again.checkAt))
            else !reply.RateLimited?
  {
    BlockedRun(hash, a, c, s, rs, again.key, t, blockedUntil, again.checkAt);
    var after := ServeAll(hash, a, c, s, rs);
    ServeMakesCalls(hash, a, c, after, again);
    assert Step(c, after, Check(again.key, again.checkAt)).1 ==
           if again.checkAt < blockedUntil then blockedUntil - again.checkAt else 0;
  }

  lemma RefusedMeansBlocked<H>(hash: Bytes -> H, a: Account<H>, c: Settings, s: State, r: Request)
    requires a.enabled && Serve(hash, a, c, s, r).1.RateLimited?
    ensures var wait := Step(c, s, Check(r.key, r.checkAt)).1;
            && wait > 0 && Serve(hash, a, c, s, r).1.retryAfter == RetryAfterSeconds(wait)
            && Blocked(Serve(hash, a, c, s, r).0, r.key, r.checkAt + wait)
  {
  }

  /** A client told at time t to retry after `seconds` is let through to the credential check by a request that
      comes no earlier, and is still refused one second before. */
  predicate Honored(t: int, seconds: int, again: Request, reply: Reply) {
    && (again.checkAt >= t + seconds * SECOND ==> !reply.RateLimited?)
    && (again.checkAt <= t + (seconds - 1) * SECOND ==> reply.RateLimited?)
  }

  lemma BlockIsHonored<H>(
      hash: Bytes -> H, a: Account<H>, c: Settings, s: State, rs: seq<Request>, t: int, wait: int, again: Request)
    requires a.enabled && c.Valid() && wait > 0
    requires Blocked(s, again.key, t + wait) && TriesInTurn(rs, again.key, t, t + wait, again.checkAt)
    ensures AllLimited(rs, Replies(hash, a, c, s, rs), again.key, t + wait)
    ensures Honored(t, RetryAfterSeconds(wait), again, Serve(hash, a, c, ServeAll(hash, a, c, s, rs), again).1)
  {
    BlockedClientIsRefused(hash, a, c, s, rs, t, t + wait, again);
    SecondsCoverWait(wait);
  }

  /** A refused client that keeps trying in the meantime, and comes back after the announced seconds, is not
      refused for its tries any more; a second earlier it still is. */
  lemma RetryAfterHonored<H>(
      hash: Bytes -> H, a: Account<H>, c: Settings, s: State, first: Request, rs: seq<Request>, again: Request)
    requires a.enabled && c.Valid()
    requires Serve(hash, a, c, s, first).1.RateLimited? && again.key == first.key
    requires TriesInTurn(rs, first.key, first.checkAt, first.checkAt + Step(c, s, Check(first.key, first.checkAt)).1,
                         again.checkAt)
    ensures var (s1, refusal) := Serve(hash, a, c, s, first);
            && AllLimited(rs, Replies(hash, a, c, s1, rs), first.key,
                          first.checkAt + Step(c, s, Check(first.key, first.checkAt)).1)
            && Honored(first.checkAt, refusal.retryAfter, again,
                       Serve(hash, a, c, ServeAll(hash, a, c, s1, rs), again).1)
  {
    RefusedMeansBlocked(hash, a, c, s, first);
    var wait := Step(c, s, Check(first.key, first.checkAt)).1;
    BlockIsHonored(hash, a, c, Serve(hash, a, c, s, first).0, rs, first.checkAt, wait, again);
  }

  /** End to end: a client of an unblocked key gets through with the value written for (user, pass)
      exactly when that is the configured pair. */
  lemma AuthenticateRoundTrip<H(!new)>(
      hash: Bytes -> H, cfgUser: Bytes, cfgPass: Bytes, user: Bytes, pass: Bytes,
      c: Settings, s: State, key: Key, checkAt: int, actAt: int)
    requires Injective(hash) && COLON !in user
    requires cfgUser != [] || cfgPass != []
    requires Step(c, s, Check(key, checkAt)).1 == 0
    ensures Serve(hash, NewAccount(hash, cfgUser, cfgPass), c, s,
                  Request(key, CredentialsValue(user, pass), checkAt, actAt)).1.Allowed?
            <==> user == cfgUser && pass == cfgPass
  {
    CredentialRoundTrip(hash, cfgUser, cfgPass, user, pass);
  }
}
