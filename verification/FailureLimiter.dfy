/**
 The failed-authentication limiter of internal/auth/limiter.go.

 Times are integer nanoseconds; the zero time.Time is None. `Step` is one locked call of the limiter,
 including the lazy cleanup; `PlainStep` is the same call in a limiter that never cleans up.
 */
module FailureLimiter {
  import opened Options

  type Key = string

  datatype Settings = Settings(maxFailures: int, window: int, block: int) {
    predicate Valid() { maxFailures > 0 && window > 0 && block > 0 }
  }

  datatype Record = Record(failures: int, windowStart: int, blockedUntil: Option<int>)

  type Records = map<Key, Record>

  datatype State = State(records: Records, nextCleanup: Option<int>)

  /** One locked call: retryAfter, recordFailure or reset, with the clock value it read. */
  datatype Op = Check(key: Key, now: int) | Fail(key: Key, now: int) | Reset(key: Key)

  const FRESH := State(map[], None)

  function Expires(c: Settings, r: Record): int {
    var windowEnd := r.windowStart + c.window;
    if r.blockedUntil.Some? && r.blockedUntil.value > windowEnd then r.blockedUntil.value else windowEnd
  }

  function Live(c: Settings, records: Records, now: int): Records {
    map k | k in records && now < Expires(c, records[k]) :: records[k]
  }

  function Cleaned(c: Settings, s: State, now: int): State {
    if s.nextCleanup.Some? && now < s.nextCleanup.value then s
    else State(Live(c, s.records, now), Some(now + c.window))
  }

  function Counted(c: Settings, r: Record, now: int): Record {
    Record(r.failures + 1, r.windowStart,
           if r.failures + 1 >= c.maxFailures then Some(now + c.block) else r.blockedUntil)
  }

  function PlainStep(c: Settings, records: Records, op: Op): (Records, int) {
    match op
    case Check(k, now) =>
      if k !in records || records[k].blockedUntil.None? then (records, 0)
      else if now >= records[k].blockedUntil.value then (records - {k}, 0)
      else (records, records[k].blockedUntil.value - now)
    case Fail(k, now) =>
      var base := if k !in records || now - records[k].windowStart >= c.window
                  then Record(0, now, None) else records[k];
      (records[k := Counted(c, base, now)], 0)
    case Reset(k) => (records - {k}, 0)
  }

  function Step(c: Settings, s: State, op: Op): (State, int) {
    var s1 := if op.Reset? then s else Cleaned(c, s, op.now);
    var (records, d) := PlainStep(c, s1.records, op);
    (State(records, s1.nextCleanup), d)
  }

  /** The answers a whole sequence of calls gets, with and without cleanup. */
  function Answers(c: Settings, s: State, ops: seq<Op>): seq<int>
    decreases ops
  {
    if ops == [] then [] else
      var (s1, d) := Step(c, s, ops[0]);
      [d] + Answers(c, s1, ops[1..])
  }

  function PlainAnswers(c: Settings, records: Records, ops: seq<Op>): seq<int>
    decreases ops
  {
    if ops == [] then [] else
      var (r1, d) := PlainStep(c, records, ops[0]);
      [d] + PlainAnswers(c, r1, ops[1..])
  }

  function After(c: Settings, s: State, ops: seq<Op>): State
    decreases ops
  {
    if ops == [] then s else After(c, Step(c, s, ops[0]).0, ops[1..])
  }

  /** The clock values of the calls never go back, starting from `from`. */
  predicate Ordered(ops: seq<Op>, from: int) {
    ops == [] ||
    if ops[0].Reset? then Ordered(ops[1..], from)
    else from <= ops[0].now && Ordered(ops[1..], ops[0].now)
  }

  // ---------------------------------------------------------------- cleanup cannot be observed

  /** Every record the cleaning limiter has, the other one has too; what it lacks is dead from time t on. */
  ghost predicate Mirrors(c: Settings, cleaned: Records, plain: Records, t: int) {
    && (forall k :: k in cleaned ==> k in plain && plain[k] == cleaned[k])
    && (forall k :: k in plain && k !in cleaned ==> t >= Expires(c, plain[k]))
  }

  lemma StepKeepsMirror(c: Settings, s: State, plain: Records, op: Op, t: int)
    requires c.Valid()
    requires Mirrors(c, s.records, plain, t)
    requires op.Reset? || t <= op.now
    ensures var (s1, d) := Step(c, s, op);
            var (p1, e) := PlainStep(c, plain, op);
            d == e && Mirrors(c, s1.records, p1, if op.Reset? then t else op.now)
  {
    if !op.Reset? {
      var s1 := Cleaned(c, s, op.now);
      assert Mirrors(c, s1.records, plain, op.now);
    }
  }

  lemma {:induction false} AnswersAgree(c: Settings, s: State, plain: Records, ops: seq<Op>, t: int)
    requires c.Valid()
    requires Mirrors(c, s.records, plain, t)
    requires Ordered(ops, t)
    ensures Answers(c, s, ops) == PlainAnswers(c, plain, ops)
    decreases ops
  {
    if ops != [] {
      StepKeepsMirror(c, s, plain, ops[0], t);
      AnswersAgree(c, Step(c, s, ops[0]).0, PlainStep(c, plain, ops[0]).0, ops[1..],
                   if ops[0].Reset? then t else ops[0].now);
    }
  }

  /** The periodic cleanup is unobservable in every run whose clock never goes back. */
  lemma CleanupUnobservable(c: Settings, ops: seq<Op>, t: int)
    requires c.Valid()
    requires Ordered(ops, t)
    ensures Answers(c, FRESH, ops) == PlainAnswers(c, map[], ops)
  {
    AnswersAgree(c, FRESH, map[], ops, t);
  }

  /** The ordering hypothesis is needed: `now` is read before the lock is taken, so a late caller can
      present an older time, and then a cleanup that ran in between does show. */
  lemma CleanupShowsWhenTimesGoBack()
    ensures var c := Settings(1, 10, 10);
            var ops := [Fail("a", 0), Check("b", 10), Check("a", 9)];
            !Ordered(ops, 0) && Answers(c, FRESH, ops) == [0, 0, 0] && PlainAnswers(c, map[], ops) == [0, 0, 1]
  {
    var c := Settings(1, 10, 10);
    var ops := [Fail("a", 0), Check("b", 10), Check("a", 9)];
    var r := Record(1, 0, Some(10));
    var s1 := State(map["a" := r], Some(10));
    assert Step(c, FRESH, ops[0]) == (s1, 0);
    assert PlainAnswers(c, map["a" := r], ops[1..][1..]) == [1];
    assert PlainAnswers(c, map["a" := r], ops[1..]) == [0, 1];
  }

  // ---------------------------------------------------------------- the imperative limiter

  class Limiter {
    const cfg: Settings
    var records: Records
    var nextCleanup: Option<int>

    ghost function View(): State
      reads this
    {
      State(records, nextCleanup)
    }

    constructor (c: Settings)
      requires c.Valid()
      ensures cfg == c && View() == FRESH
    {
      cfg := c;
      records := map[];
      nextCleanup := None;
    }

    method Cleanup(now: int)
      modifies this
      ensures View() == Cleaned(cfg, old(View()), now)
    {
      if nextCleanup.Some? && now < nextCleanup.value {
        return;
      }
      var keys := records.Keys;
      while keys != {}
        invariant nextCleanup == old(nextCleanup)
        invariant forall k :: k in records ==> k in old(records) && records[k] == old(records)[k]
        invariant forall k :: k in old(records) && k !in records ==> now >= Expires(cfg, old(records)[k])
        invariant keys <= records.Keys
        invariant forall k :: k in records && k !in keys ==> now < Expires(cfg, records[k])
        decreases |keys|
      {
        var key :| key in keys;
        keys := keys - {key};
        var record := records[key];
        var expires := record.windowStart + cfg.window;
        if record.blockedUntil.Some? && record.blockedUntil.value > expires {
          expires := record.blockedUntil.value;
        }
        if !(now < expires) {
          records := records - {key};
        }
      }
      nextCleanup := Some(now + cfg.window);
      assert records == Live(cfg, old(records), now);
    }

    method RetryAfter(key: Key, now: int) returns (wait: int)
      modifies this
      ensures (View(), wait) == Step(cfg, old(View()), Check(key, now))
    {
      Cleanup(now);
      if key !in records || records[key].blockedUntil.None? {
        return 0;
      }
      var blockedUntil := records[key].blockedUntil.value;
      if !(now < blockedUntil) {
        records := records - {key};
        return 0;
      }
      return blockedUntil - now;
    }

    method RecordFailure(key: Key, now: int)
      modifies this
      ensures (View(), 0) == Step(cfg, old(View()), Fail(key, now))
    {
      Cleanup(now);
      var record := Record(0, now, None);
      if key in records && now - records[key].windowStart < cfg.window {
        record := records[key];
      }
      record := record.(failures := record.failures + 1);
      if record.failures >= cfg.maxFailures {
        record := record.(blockedUntil := Some(now + cfg.block));
      }
      records := records[key := record];
    }

    method Forget(key: Key)
      modifies this
      ensures (View(), 0) == Step(cfg, old(View()), Reset(key))
    {
      records := records - {key};
    }
  }
}
