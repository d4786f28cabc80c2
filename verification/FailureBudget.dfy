/**
 What the failed-authentication limiter guarantees over whole runs of Authenticate
 (internal/auth/basic.go, internal/auth/limiter.go): how many failures a key can get recorded in any
 stretch of one window, and how long a block lasts.

 A run is any interleaving of the locked limiter calls of any number of keys, with clock values that
 never go back. Of the key under study, at most `k` Authenticate calls are under way at a time; with k = 1
 its calls do not overlap. A call records a failure, or a success, only if its own check let it through.
 */
module FailureBudget {
  import opened Options
  import opened FailureLimiter

  // ---------------------------------------------------------------- calls under way

  /** How many calls of `key` that were let through may still have to record their result after `op`, if
      `open` did before and `op` is allowed at all. A further check while k calls are under way means that one
      of them has ended without recording (no credentials). */
  function Opened(op: Op, key: Key, wait: int, open: nat, k: nat): Option<nat>
    requires k > 0
  {
    if op.key != key then Some(open)
    else if op.Check? then
      var others := if open < k then open else k - 1;
      Some(if wait == 0 then others + 1 else others)
    else if open > 0 then Some(open - 1)
    else None
  }

  /** The calls of `key` in `ops` are those of Authenticate, with at most k under way at a time. */
  predicate AuthCalls(c: Settings, s: State, ops: seq<Op>, key: Key, open: nat, k: nat)
    requires k > 0
    decreases ops
  {
    ops == [] ||
    var (s1, wait) := Step(c, s, ops[0]);
    var open1 := Opened(ops[0], key, wait, open, k);
    open1.Some? && AuthCalls(c, s1, ops[1..], key, open1.value, k)
  }

  predicate NeverSucceeds(ops: seq<Op>, key: Key) {
    forall i :: 0 <= i < |ops| && ops[i].Reset? ==> ops[i].key != key
  }

  predicate IsFailingRun(c: Settings, ops: seq<Op>, key: Key, k: nat, start: int)
    requires k > 0
  {
    Ordered(ops, start) && AuthCalls(c, FRESH, ops, key, 0, k) && NeverSucceeds(ops, key)
  }

  /** Failures recorded for `key` at times in [from, to). */
  function Failures(ops: seq<Op>, key: Key, from: int, to: int): nat {
    if ops == [] then 0 else
      (if ops[0].Fail? && ops[0].key == key && from <= ops[0].now < to then 1 else 0)
      + Failures(ops[1..], key, from, to)
  }

  /** The most failures that fit into one window length: those of a full record, and the `Carry` of an older
      one. For calls that do not overlap never more than 2 * maxFailures - 1. */
  function Budget(c: Settings, k: nat): (b: int)
    requires c.Valid() && k > 0
    ensures c.maxFailures + k - 1 <= b <= 2 * (c.maxFailures + k) - 3
  {
    c.maxFailures + k - 1 + Carry(c, k)
  }

  /** What an older record can leave in the same window length: not its first failure, and one call that was
      let through has to wait until the record's window is over, so that a newer record can start. */
  function Carry(c: Settings, k: nat): int {
    if c.maxFailures >= 2 && c.window >= 2 then c.maxFailures + k - 3 else 0
  }

  predicate MeetsBudget(c: Settings, ops: seq<Op>, key: Key, k: nat, from: int)
    requires c.Valid() && k > 0
  {
    Failures(ops, key, from, from + c.window) <= Budget(c, k)
  }

  // ---------------------------------------------------------------- the upper bound

  /** The records of a limiter that never cleans up, and the calls of the key under way. */
  datatype Gate = Gate(records: Records, open: nat)

  /** Where a run leads without cleanup, if its calls of `key` are those of Authenticate. */
  function Passed(c: Settings, g: Gate, ops: seq<Op>, key: Key, k: nat): Option<Gate>
    requires k > 0
    decreases ops
  {
    if ops == [] then Some(g)
    else
      var (r1, wait) := PlainStep(c, g.records, ops[0]);
      var open1 := Opened(ops[0], key, wait, g.open, k);
      if open1.None? then None else Passed(c, Gate(r1, open1.value), ops[1..], key, k)
  }

  /** Since cleanup cannot be observed, the run may be studied without it. */
  lemma {:induction false} WithoutCleanup(
      c: Settings, s: State, plain: Records, ops: seq<Op>, key: Key, open: nat, k: nat, t: int)
    requires c.Valid() && k > 0
    requires Mirrors(c, s.records, plain, t)
    requires Ordered(ops, t)
    ensures AuthCalls(c, s, ops, key, open, k) <==> Passed(c, Gate(plain, open), ops, key, k).Some?
    decreases ops
  {
    if ops != [] {
      var op := ops[0];
      StepKeepsMirror(c, s, plain, op, t);
      var s1, p1, t1 := Step(c, s, op).0, PlainStep(c, plain, op).0, if op.Reset? then t else op.now;
      var open1 := Opened(op, key, Step(c, s, op).1, open, k);
      if open1.Some? {
        WithoutCleanup(c, s1, p1, ops[1..], key, open1.value, k, t1);
      }
    }
  }

  /** The key's record: blocked once it is full, and then only the calls under way can still add to it. */
  ghost predicate RecordOk(c: Settings, r: Record, open: nat, k: nat, now: int) {
    && 1 <= r.failures && r.windowStart <= now
    && (r.blockedUntil.Some? <==> r.failures >= c.maxFailures)
    && (r.blockedUntil.Some? ==> r.failures + open <= c.maxFailures + k - 1)
  }

  /** What `n` failures recorded in [from, from + window) say about the key's record before the interval ends. */
  ghost predicate RecordExplains(c: Settings, r: Record, open: nat, k: nat, n: int, from: int) {
    && (r.blockedUntil.Some? ==> n == 0 || r.blockedUntil.value >= from + c.window)
    && (c.maxFailures == 1 ==> n + open <= k)
    && if r.windowStart >= from then c.maxFailures == 1 || n <= r.failures + Carry(c, k)
       else n <= r.failures - 1 && (n > 0 ==> from < r.windowStart + c.window)
  }

  /** `n` failures of `key` were recorded in [from, from + window) up to time `now`. */
  ghost predicate WithinBudget(c: Settings, g: Gate, key: Key, k: nat, now: int, n: int, from: int)
    requires c.Valid() && k > 0
  {
    && 0 <= n <= Budget(c, k) && g.open <= k
    && (now < from ==> n == 0)
    && (key in g.records ==> RecordOk(c, g.records[key], g.open, k, now))
    && (now < from + c.window ==>
          if key !in g.records then n == 0 else RecordExplains(c, g.records[key], g.open, k, n, from))
  }

  lemma StepKeepsBudget(c: Settings, g: Gate, op: Op, key: Key, k: nat, now: int, n: int, from: int)
    requires c.Valid() && c.block >= c.window && k > 0
    requires WithinBudget(c, g, key, k, now, n, from)
    requires (op.Reset? && op.key != key) || (!op.Reset? && now <= op.now)
    requires Opened(op, key, PlainStep(c, g.records, op).1, g.open, k).Some?
    ensures var (r1, wait) := PlainStep(c, g.records, op);
            var n1 := n + if op.Fail? && op.key == key && from <= op.now < from + c.window then 1 else 0;
            var now1 := if op.Reset? then now else op.now;
            WithinBudget(c, Gate(r1, Opened(op, key, wait, g.open, k).value), key, k, now1, n1, from)
  {
  }

  lemma {:induction false} BudgetKept(
      c: Settings, g: Gate, ops: seq<Op>, key: Key, k: nat, now: int, n: int, from: int)
    requires c.Valid() && c.block >= c.window && k > 0
    requires WithinBudget(c, g, key, k, now, n, from)
    requires Ordered(ops, now) && NeverSucceeds(ops, key)
    requires Passed(c, g, ops, key, k).Some?
    ensures n + Failures(ops, key, from, from + c.window) <= Budget(c, k)
    decreases ops
  {
    if ops != [] {
      var op := ops[0];
      var (r1, wait) := PlainStep(c, g.records, op);
      var now1 := if op.Reset? then now else op.now;
      var n1 := n + if op.Fail? && op.key == key && from <= op.now < from + c.window then 1 else 0;
      StepKeepsBudget(c, g, op, key, k, now, n, from);
      BudgetKept(c, Gate(r1, Opened(op, key, wait, g.open, k).value), ops[1..], key, k, now1, n1, from);
    }
  }

  lemma FailureBudgetHolds(c: Settings, ops: seq<Op>, key: Key, k: nat, start: int, from: int)
    requires c.Valid() && c.block >= c.window && k > 0
    requires IsFailingRun(c, ops, key, k, start)
    ensures MeetsBudget(c, ops, key, k, from)
  {
    WithoutCleanup(c, FRESH, map[], ops, key, 0, k, start);
    BudgetKept(c, Gate(map[], 0), ops, key, k, start, 0, from);
  }

  // ---------------------------------------------------------------- it is exact

  /** `ops` takes the key from one gate to another, all at time t, recording n failures. */
  ghost predicate Plays(c: Settings, g: Gate, ops: seq<Op>, key: Key, k: nat, t: int, n: nat, after: Gate)
    requires k > 0
  {
    && Passed(c, g, ops, key, k) == Some(after)
    && (forall i :: 0 <= i < |ops| ==> !ops[i].Reset? && ops[i].now == t)
    && (forall from, to :: Failures(ops, key, from, to) == if from <= t < to then n else 0)
  }

  lemma {:induction false} PassedConcat(c: Settings, g: Gate, first: seq<Op>, second: seq<Op>, key: Key, k: nat)
    requires k > 0
    ensures Passed(c, g, first + second, key, k) ==
            var mid := Passed(c, g, first, key, k);
            if mid.None? then None else Passed(c, mid.value, second, key, k)
    decreases first
  {
    if first == [] {
      assert first + second == second;
    } else {
      assert (first + second)[1..] == first[1..] + second;
      var (r1, wait) := PlainStep(c, g.records, first[0]);
      var open1 := Opened(first[0], key, wait, g.open, k);
      if open1.Some? {
        PassedConcat(c, Gate(r1, open1.value), first[1..], second, key, k);
      }
    }
  }

  lemma {:induction false} FailuresConcat(first: seq<Op>, second: seq<Op>, key: Key, from: int, to: int)
    ensures Failures(first + second, key, from, to) == Failures(first, key, from, to) + Failures(second, key, from, to)
    decreases first
  {
    if first == [] {
      assert first + second == second;
    } else {
      assert (first + second)[1..] == first[1..] + second;
      FailuresConcat(first[1..], second, key, from, to);
    }
  }

  lemma PlaysConcat(c: Settings, g: Gate, first: seq<Op>, m: nat, mid: Gate, second: seq<Op>, n: nat, after: Gate,
                    key: Key, k: nat, t: int)
    requires k > 0 && Plays(c, g, first, key, k, t, m, mid) && Plays(c, mid, second, key, k, t, n, after)
    ensures Plays(c, g, first + second, key, k, t, m + n, after)
  {
    PassedConcat(c, g, first, second, key, k);
    forall from, to ensures Failures(first + second, key, from, to) == if from <= t < to then m + n else 0 {
      FailuresConcat(first, second, key, from, to);
    }
  }

  function Repeated(op: Op, n: nat): seq<Op> {
    if n == 0 then [] else [op] + Repeated(op, n - 1)
  }

  /** `n` failing Authenticate calls of `key`, one after the other. */
  function Attempts(key: Key, n: nat, t: int): seq<Op> {
    if n == 0 then [] else [Check(key, t), Fail(key, t)] + Attempts(key, n - 1, t)
  }

  /** The record a failure at time t would be counted in. */
  function Base(c: Settings, records: Records, key: Key, t: int): Record {
    if key !in records || t - records[key].windowStart >= c.window then Record(0, t, None) else records[key]
  }

  lemma {:induction false} PlayChecks(c: Settings, g: Gate, key: Key, k: nat, n: nat, t: int)
    requires k > 0 && g.open + n <= k
    requires key in g.records ==> g.records[key].blockedUntil.None?
    ensures Plays(c, g, Repeated(Check(key, t), n), key, k, t, 0, g.(open := g.open + n))
    decreases n
  {
    if n > 0 {
      PlayChecks(c, g.(open := g.open + 1), key, k, n - 1, t);
    }
  }

  /** The record after n >= 1 failures at time t. */
  function Struck(c: Settings, r: Record, n: nat, t: int): Record {
    Record(r.failures + n, r.windowStart, if r.failures + n >= c.maxFailures then Some(t + c.block) else r.blockedUntil)
  }

  /** Failures of calls under way, all in one record. */
  lemma {:induction false} PlayFails(c: Settings, g: Gate, key: Key, k: nat, n: nat, t: int)
    requires c.Valid() && k > 0 && 1 <= n <= g.open
    ensures Plays(c, g, Repeated(Fail(key, t), n), key, k, t, n,
                  Gate(g.records[key := Struck(c, Base(c, g.records, key, t), n, t)], g.open - n))
    decreases n
  {
    var r := Base(c, g.records, key, t);
    var g1 := Gate(g.records[key := Struck(c, r, 1, t)], g.open - 1);
    assert PlainStep(c, g.records, Fail(key, t)).0 == g1.records;
    if n > 1 {
      PlayFails(c, g1, key, k, n - 1, t);
      assert Base(c, g1.records, key, t) == Struck(c, r, 1, t);
      assert Struck(c, Struck(c, r, 1, t), n - 1, t) == Struck(c, r, n, t);
      assert g1.records[key := Struck(c, r, n, t)] == g.records[key := Struck(c, r, n, t)];
    } else {
      assert Repeated(Fail(key, t), 1) == [Fail(key, t)];
    }
  }

  /** One failing call. */
  lemma PlayOne(c: Settings, g: Gate, key: Key, k: nat, t: int)
    requires c.Valid() && k > 0 && g.open == 0
    requires key in g.records ==> g.records[key].blockedUntil.None?
    ensures Plays(c, g, [Check(key, t), Fail(key, t)], key, k, t, 1,
                  Gate(g.records[key := Struck(c, Base(c, g.records, key, t), 1, t)], 0))
  {
    PlayChecks(c, g, key, k, 1, t);
    PlayFails(c, g.(open := 1), key, k, 1, t);
    assert Repeated(Check(key, t), 1) == [Check(key, t)] && Repeated(Fail(key, t), 1) == [Fail(key, t)];
    var after := Gate(g.records[key := Struck(c, Base(c, g.records, key, t), 1, t)], 0);
    PlaysConcat(c, g, [Check(key, t)], 0, g.(open := 1), [Fail(key, t)], 1, after, key, k, t);
    assert [Check(key, t)] + [Fail(key, t)] == [Check(key, t), Fail(key, t)];
  }

  lemma {:induction false} PlayAttempts(c: Settings, g: Gate, key: Key, k: nat, n: nat, t: int)
    requires c.Valid() && k > 0 && g.open == 0
    requires key in g.records ==> g.records[key].blockedUntil.None?
    requires Base(c, g.records, key, t).failures + n < c.maxFailures
    ensures var r := Base(c, g.records, key, t);
            Plays(c, g, Attempts(key, n, t), key, k, t, n,
                  if n == 0 then g else Gate(g.records[key := r.(failures := r.failures + n)], 0))
    decreases n
  {
    if n > 0 {
      var r := Base(c, g.records, key, t);
      var g1 := Gate(g.records[key := Struck(c, r, 1, t)], 0);
      PlayOne(c, g, key, k, t);
      PlayAttempts(c, g1, key, k, n - 1, t);
      var after := Gate(g.records[key := r.(failures := r.failures + n)], 0);
      assert n > 1 ==> g1.records[key := r.(failures := r.failures + n)] == after.records;
      PlaysConcat(c, g, [Check(key, t), Fail(key, t)], 1, g1, Attempts(key, n - 1, t), n - 1, after, key, k, t);
    }
  }

  /** a attempts one after the other, then k calls at once, of which j record their failure. */
  function Fill(key: Key, a: nat, k: nat, j: nat, t: int): seq<Op> {
    Attempts(key, a, t) + (Repeated(Check(key, t), k) + Repeated(Fail(key, t), j))
  }

  function Filled(c: Settings, g: Gate, key: Key, k: nat, a: nat, j: nat, t: int): Gate
    requires j <= k
  {
    var r := Base(c, g.records, key, t);
    if a + j == 0 then g.(open := k)
    else
      var full := Record(r.failures + a + j, r.windowStart, if j > 0 then Some(t + c.block) else None);
      Gate(g.records[key := full], k - j)
  }

  /** The attempts leave room for one failure, so that all k calls are let through. */
  lemma PlayFill(c: Settings, g: Gate, key: Key, k: nat, a: nat, j: nat, t: int)
    requires c.Valid() && k > 0 && g.open == 0 && j <= k
    requires key in g.records ==> g.records[key].blockedUntil.None?
    requires Base(c, g.records, key, t).failures + a == c.maxFailures - 1
    ensures Plays(c, g, Fill(key, a, k, j, t), key, k, t, a + j, Filled(c, g, key, k, a, j, t))
  {
    var r := Base(c, g.records, key, t);
    var g1 := if a == 0 then g else Gate(g.records[key := r.(failures := r.failures + a)], 0);
    PlayAttempts(c, g, key, k, a, t);
    PlayChecks(c, g1, key, k, k, t);
    var g2, after := g1.(open := k), Filled(c, g, key, k, a, j, t);
    var checks, fails := Repeated(Check(key, t), k), Repeated(Fail(key, t), j);
    if j == 0 {
      assert Plays(c, g2, fails, key, k, t, 0, after);
    } else {
      PlayFails(c, g2, key, k, j, t);
      assert Base(c, g2.records, key, t) == r.(failures := r.failures + a);
      assert g2.records[key := after.records[key]] == after.records;
    }
    PlaysConcat(c, g1, checks, 0, g2, fails, j, after, key, k, t);
    PlaysConcat(c, g, Attempts(key, a, t), a, g1, checks + fails, j, after, key, k, t);
  }

  /** The first check after a block forgets the record. */
  lemma FillAnew(c: Settings, g: Gate, key: Key, k: nat, a: nat, j: nat, t: int)
    requires k > 0 && g.open == 0 && key in g.records
    requires g.records[key].blockedUntil.Some? && t >= g.records[key].blockedUntil.value
    ensures Passed(c, g, Fill(key, a, k, j, t), key, k) ==
            Passed(c, g.(records := g.records - {key}), Fill(key, a, k, j, t), key, k)
  {
    assert Fill(key, a, k, j, t)[0] == Check(key, t);
  }

  /** Putting what happens at time t in front of what happens later. */
  lemma {:induction false} OrderedInFront(ops: seq<Op>, t: int, rest: seq<Op>, u: int)
    requires forall i :: 0 <= i < |ops| ==> !ops[i].Reset? && ops[i].now == t
    requires u <= t && Ordered(rest, t)
    ensures Ordered(ops + rest, u)
    decreases ops
  {
    if ops == [] {
      assert ops + rest == rest;
      OrderedEarlier(rest, t, u);
    } else {
      assert (ops + rest)[1..] == ops[1..] + rest;
      OrderedInFront(ops[1..], t, rest, t);
    }
  }

  lemma {:induction false} OrderedEarlier(ops: seq<Op>, t: int, u: int)
    requires Ordered(ops, t) && u <= t
    ensures Ordered(ops, u)
  {
    if ops != [] && ops[0].Reset? {
      OrderedEarlier(ops[1..], t, u);
    }
  }

  /** A run played at one time, from the empty limiter. */
  lemma FillIsRun(c: Settings, key: Key, k: nat)
    requires c.Valid() && k > 0
    ensures IsFailingRun(c, Fill(key, c.maxFailures - 1, k, k, 0), key, k, 0)
    ensures Failures(Fill(key, c.maxFailures - 1, k, k, 0), key, 0, c.window) == c.maxFailures + k - 1
  {
    var ops := Fill(key, c.maxFailures - 1, k, k, 0);
    PlayFill(c, Gate(map[], 0), key, k, c.maxFailures - 1, k, 0);
    OrderedInFront(ops, 0, [], 0);
    assert ops + [] == ops;
    WithoutCleanup(c, FRESH, map[], ops, key, 0, k, 0);
  }

  /** When the block ends inside the window, the key fills a second record in the same window. */
  lemma ShortBlockBreaksBudget(c: Settings, key: Key, k: nat) returns (ops: seq<Op>)
    requires c.Valid() && c.block < c.window && k > 0
    ensures IsFailingRun(c, ops, key, k, 0)
    ensures Failures(ops, key, 0, c.window) == 2 * (c.maxFailures + k - 1)
  {
    var a, empty := c.maxFailures - 1, Gate(map[], 0);
    var first, second := Fill(key, a, k, k, 0), Fill(key, a, k, k, c.block);
    ops := first + second;
    PlayFill(c, empty, key, k, a, k, 0);
    var full := Filled(c, empty, key, k, a, k, 0);
    FillAnew(c, full, key, k, a, k, c.block);
    PlayFill(c, full.(records := full.records - {key}), key, k, a, k, c.block);
    PassedConcat(c, empty, first, second, key, k);
    FailuresConcat(first, second, key, 0, c.window);
    OrderedInFront(second, c.block, [], 0);
    assert second + [] == second;
    OrderedInFront(first, 0, second, 0);
    WithoutCleanup(c, FRESH, map[], ops, key, 0, k, 0);
  }

  /** The older record's first failure at 0, the rest of it at 1, where one of k calls is kept back; at the end of
      the window that call starts a new record, which is filled as well. */
  lemma TwoRecords(c: Settings, key: Key, k: nat) returns (early: seq<Op>, late: seq<Op>, last: seq<Op>)
    requires c.Valid() && c.window >= 2 && c.maxFailures >= 2 && k > 0
    ensures forall i :: 0 <= i < |early| ==> !early[i].Reset? && early[i].now == 0
    ensures forall i :: 0 <= i < |late| ==> !late[i].Reset? && late[i].now == 1
    ensures forall i :: 0 <= i < |last| ==> !last[i].Reset? && last[i].now == c.window
    ensures Passed(c, Gate(map[], 0), early + (late + last), key, k).Some?
    ensures Failures(early, key, 1, 1 + c.window) == 0
    ensures Failures(late, key, 1, 1 + c.window) == c.maxFailures + k - 3
    ensures Failures(last, key, 1, 1 + c.window) == c.maxFailures + k - 1
  {
    var M, W, empty := c.maxFailures, c.window, Gate(map[], 0);
    early, late := Attempts(key, 1, 0), Fill(key, M - 2, k, k - 1, 1);
    PlayAttempts(c, empty, key, k, 1, 0);
    var one := Gate(map[key := Record(1, 0, None)], 0);
    PlayFill(c, one, key, k, M - 2, k - 1, 1);
    var held := Filled(c, one, key, k, M - 2, k - 1, 1);
    PlayFails(c, held, key, k, 1, W);
    var anew := Gate(held.records[key := Record(1, W, None)], 0);
    PlayFill(c, anew, key, k, M - 2, k, W);
    var end := Filled(c, anew, key, k, M - 2, k, W);
    last := Repeated(Fail(key, W), 1) + Fill(key, M - 2, k, k, W);
    PlaysConcat(c, held, Repeated(Fail(key, W), 1), 1, anew, Fill(key, M - 2, k, k, W), M - 2 + k, end, key, k, W);
    PassedConcat(c, one, late, last, key, k);
    PassedConcat(c, empty, early, late + last, key, k);
  }

  /** The budget is reached, so it cannot be lowered. */
  lemma BudgetReached(c: Settings, key: Key, k: nat) returns (ops: seq<Op>, from: int)
    requires c.Valid() && k > 0
    ensures IsFailingRun(c, ops, key, k, 0)
    ensures Failures(ops, key, from, from + c.window) == Budget(c, k)
  {
    if c.window < 2 || c.maxFailures < 2 {
      ops, from := Fill(key, c.maxFailures - 1, k, k, 0), 0;
      FillIsRun(c, key, k);
    } else {
      var early, late, last := TwoRecords(c, key, k);
      ops, from := early + (late + last), 1;
      FailuresConcat(late, last, key, 1, 1 + c.window);
      FailuresConcat(early, late + last, key, 1, 1 + c.window);
      OrderedInFront(last, c.window, [], 1);
      assert last + [] == last;
      OrderedInFront(late, 1, last, 0);
      OrderedInFront(early, 0, late + last, 0);
      WithoutCleanup(c, FRESH, map[], ops, key, 0, k, 0);
    }
  }

  /** The budget holds in every run if and only if the block lasts at least one window. */
  lemma BudgetIffBlockCoversWindow(c: Settings, k: nat)
    requires c.Valid() && k > 0
    ensures (forall ops, key, start, from ::
               IsFailingRun(c, ops, key, k, start) ==> MeetsBudget(c, ops, key, k, from))
            <==> c.block >= c.window
  {
    if c.block >= c.window {
      forall ops, key, start, from | IsFailingRun(c, ops, key, k, start)
        ensures MeetsBudget(c, ops, key, k, from)
      {
        FailureBudgetHolds(c, ops, key, k, start, from);
      }
    } else {
      var ops := ShortBlockBreaksBudget(c, "client", k);
      assert IsFailingRun(c, ops, "client", k, 0) && !MeetsBudget(c, ops, "client", k, 0);
    }
  }

  /** So what a key can get recorded grows without bound with the calls it has under way: k calls that all check
      before any of them records are all let through and all recorded. */
  lemma OverlappingCallsAreUnbounded(c: Settings, key: Key, k: nat)
    requires c.Valid() && k > 0
    ensures var ops := Repeated(Check(key, 0), k) + Repeated(Fail(key, 0), k);
            IsFailingRun(c, ops, key, k, 0) && Failures(ops, key, 0, c.window) == k
  {
    var g, checks, fails := Gate(map[], 0), Repeated(Check(key, 0), k), Repeated(Fail(key, 0), k);
    PlayChecks(c, g, key, k, k, 0);
    PlayFails(c, g.(open := k), key, k, k, 0);
    PassedConcat(c, g, checks, fails, key, k);
    FailuresConcat(checks, fails, key, 0, c.window);
    OrderedInFront(checks + fails, 0, [], 0);
    assert checks + fails + [] == checks + fails;
    WithoutCleanup(c, FRESH, map[], checks + fails, key, 0, k, 0);
  }

  // ---------------------------------------------------------------- whole Authenticate calls

  datatype Credentials = Missing | Wrong | Right

  /** One Authenticate call of a client, with the clock at its check and at its recording. */
  datatype Attempt = Attempt(key: Key, credentials: Credentials, checkAt: int, actAt: int)

  /** The limiter calls it makes. */
  function Calls(c: Settings, s: State, a: Attempt): seq<Op> {
    var check := Check(a.key, a.checkAt);
    if Step(c, s, check).1 > 0 || a.credentials.Missing? then [check]
    else if a.credentials.Right? then [check, Reset(a.key)]
    else [check, Fail(a.key, a.actAt)]
  }

  function AllCalls(c: Settings, s: State, attempts: seq<Attempt>): seq<Op>
    decreases attempts
  {
    if attempts == [] then []
    else
      var calls := Calls(c, s, attempts[0]);
      calls + AllCalls(c, After(c, s, calls), attempts[1..])
  }

  /** The calls follow one another in time, and none of the key's carries the right credentials. */
  predicate FailingAttempts(attempts: seq<Attempt>, key: Key, from: int) {
    attempts != [] ==>
    && from <= attempts[0].checkAt <= attempts[0].actAt
    && (attempts[0].key == key ==> !attempts[0].credentials.Right?)
    && FailingAttempts(attempts[1..], key, attempts[0].actAt)
  }

  /** The calls of one Authenticate in front of those of the later ones. */
  lemma CallsInFront(c: Settings, s: State, a: Attempt, rest: seq<Op>, key: Key, open: nat)
    requires c.Valid() && a.checkAt <= a.actAt && (a.key == key ==> !a.credentials.Right?) && open <= 1
    requires forall o: nat :: o <= 1 ==> AuthCalls(c, After(c, s, Calls(c, s, a)), rest, key, o, 1)
    requires Ordered(rest, a.actAt) && NeverSucceeds(rest, key)
    ensures AuthCalls(c, s, Calls(c, s, a) + rest, key, open, 1)
    ensures Ordered(Calls(c, s, a) + rest, a.checkAt) && NeverSucceeds(Calls(c, s, a) + rest, key)
  {
    var calls := Calls(c, s, a);
    var ops, s1 := calls + rest, Step(c, s, calls[0]).0;
    OrderedEarlier(rest, a.actAt, a.checkAt);
    if |calls| == 1 {
      assert ops[1..] == rest && calls[1..] == [];
      assert After(c, s, calls) == s1;
    } else {
      assert calls[1..][0] == calls[1] && calls[1..][1..] == [];
      assert After(c, s1, calls[1..]) == Step(c, s1, calls[1]).0;
      assert Step(c, s, calls[0]).1 == 0;
      assert After(c, s, calls) == After(c, s1, calls[1..]);
      assert ops[1..][0] == calls[1] && ops[1..][1..] == rest;
    }
  }

  lemma {:induction false} AttemptsAreAuthCalls(
      c: Settings, s: State, attempts: seq<Attempt>, key: Key, open: nat, t: int)
    requires c.Valid() && FailingAttempts(attempts, key, t) && open <= 1
    ensures Ordered(AllCalls(c, s, attempts), t) && NeverSucceeds(AllCalls(c, s, attempts), key)
    ensures AuthCalls(c, s, AllCalls(c, s, attempts), key, open, 1)
    decreases attempts
  {
    if attempts != [] {
      var a := attempts[0];
      var s1 := After(c, s, Calls(c, s, a));
      var rest := AllCalls(c, s1, attempts[1..]);
      AttemptsAreAuthCalls(c, s1, attempts[1..], key, 0, a.actAt);
      AttemptsAreAuthCalls(c, s1, attempts[1..], key, 1, a.actAt);
      CallsInFront(c, s, a, rest, key, open);
      OrderedEarlier(Calls(c, s, a) + rest, a.checkAt, t);
    }
  }

  /** However clients call Authenticate, one call after the other, a key that never succeeds gets at most
      Budget(c, 1) failures recorded in any window length, provided the block lasts that long. */
  lemma AuthenticateMeetsBudget(c: Settings, attempts: seq<Attempt>, key: Key, start: int, from: int)
    requires c.Valid() && c.block >= c.window
    requires FailingAttempts(attempts, key, start)
    ensures MeetsBudget(c, AllCalls(c, FRESH, attempts), key, 1, from)
  {
    AttemptsAreAuthCalls(c, FRESH, attempts, key, 0, start);
    FailureBudgetHolds(c, AllCalls(c, FRESH, attempts), key, 1, start, from);
  }

  // ---------------------------------------------------------------- Retry-After

  const SECOND := 1_000_000_000

  /** The whole seconds writeRateLimited announces for a wait. */
  function RetryAfterSeconds(wait: int): int
    requires wait > 0
  {
    var seconds := (wait + SECOND - 1) / SECOND;
    if seconds < 1 then 1 else seconds
  }

  /** They are the least whole seconds that cover the wait. */
  lemma SecondsCoverWait(wait: int)
    requires wait > 0
    ensures (RetryAfterSeconds(wait) - 1) * SECOND < wait <= RetryAfterSeconds(wait) * SECOND
  {
  }

  ghost predicate Blocked(s: State, key: Key, until: int) {
    key in s.records && s.records[key].blockedUntil == Some(until)
  }

  /** `key` keeps calling Authenticate before its block is over, with any credentials and up to k calls at a time;
      `open` of them were let through before. The other keys do anything. */
  predicate TriesWhileBlocked(
      c: Settings, s: State, ops: seq<Op>, key: Key, open: nat, k: nat, blockedUntil: int, until: int)
    requires k > 0
  {
    && AuthCalls(c, s, ops, key, open, k)
    && forall i :: 0 <= i < |ops| ==>
         && (ops[i].key == key && ops[i].Check? ==> ops[i].now < blockedUntil)
         && (!ops[i].Reset? ==> ops[i].now <= until)
  }

  /** All the key gets done is checks, each refused for the rest of the block. */
  predicate AllRefused(ops: seq<Op>, answers: seq<int>, key: Key, blockedUntil: int) {
    && |answers| == |ops|
    && forall i :: 0 <= i < |ops| && ops[i].key == key ==> ops[i].Check? && answers[i] == blockedUntil - ops[i].now
  }

  /** While blocked, the record may only disappear, and only once the block is over. */
  lemma {:induction false} BlockStandsStill(
      c: Settings, s: State, ops: seq<Op>, key: Key, k: nat, t: int, blockedUntil: int, until: int)
    requires c.Valid() && k > 0
    requires Blocked(s, key, blockedUntil) || (key !in s.records && t >= blockedUntil)
    requires Ordered(ops, t) && t <= until
    requires TriesWhileBlocked(c, s, ops, key, 0, k, blockedUntil, until)
    ensures AllRefused(ops, Answers(c, s, ops), key, blockedUntil)
    ensures var after := After(c, s, ops);
            Blocked(after, key, blockedUntil) || (key !in after.records && until >= blockedUntil)
    decreases ops
  {
    if ops != [] {
      var op := ops[0];
      var (s1, wait) := Step(c, s, op);
      var t1 := if op.Reset? then t else op.now;
      assert Opened(op, key, wait, 0, k) == Some(0);
      BlockStandsStill(c, s1, ops[1..], key, k, t1, blockedUntil, until);
      assert Answers(c, s, ops) == [wait] + Answers(c, s1, ops[1..]);
    }
  }

  /** Whatever the other keys do and however often the blocked key tries, all its calls are refused and record
      nothing, and a check at time `until` sees exactly the rest of the original block. */
  lemma BlockNeverExtends(c: Settings, s: State, ops: seq<Op>, key: Key, k: nat, t: int, blockedUntil: int, until: int)
    requires c.Valid() && k > 0
    requires Blocked(s, key, blockedUntil)
    requires Ordered(ops, t) && t <= until
    requires TriesWhileBlocked(c, s, ops, key, 0, k, blockedUntil, until)
    ensures AllRefused(ops, Answers(c, s, ops), key, blockedUntil)
    ensures Step(c, After(c, s, ops), Check(key, until)).1 == if until < blockedUntil then blockedUntil - until else 0
  {
    BlockStandsStill(c, s, ops, key, k, t, blockedUntil, until);
  }

  /** Only a full record is blocked. */
  ghost predicate BlockedAreFull(c: Settings, s: State) {
    forall key :: key in s.records && s.records[key].blockedUntil.Some? ==> s.records[key].failures >= c.maxFailures
  }

  lemma {:induction false} BlockedStayFull(c: Settings, s: State, ops: seq<Op>)
    requires BlockedAreFull(c, s)
    ensures BlockedAreFull(c, After(c, s, ops))
    decreases ops
  {
    if ops != [] {
      BlockedStayFull(c, Step(c, s, ops[0]).0, ops[1..]);
    }
  }

  /** The clock value of the last call, or t. */
  function LastTime(ops: seq<Op>, t: int): int {
    if ops == [] then t else LastTime(ops[1..], if ops[0].Reset? then t else ops[0].now)
  }

  lemma {:induction false} BlocksBoundedLater(c: Settings, s: State, ops: seq<Op>, t: int)
    requires c.Valid() && BlocksBounded(c, s, t) && Ordered(ops, t)
    ensures BlocksBounded(c, After(c, s, ops), LastTime(ops, t))
    decreases ops
  {
    if ops != [] {
      var t1 := if ops[0].Reset? then t else ops[0].now;
      assert BlocksBounded(c, Step(c, s, ops[0]).0, t1);
      BlocksBoundedLater(c, Step(c, s, ops[0]).0, ops[1..], t1);
    }
  }

  /** What the results of calls that were let through before the block do to it. A success lifts it. A failure inside
      the record's window extends it, and after that window it starts a new record, which lifts the block unless one
      failure is enough to block. */
  lemma LateResultsMoveBlock(c: Settings, before: seq<Op>, key: Key, blockedUntil: int, now: int)
    requires c.Valid() && Blocked(After(c, FRESH, before), key, blockedUntil) && now < blockedUntil
    ensures var s := After(c, FRESH, before);
            var failed := Step(c, s, Fail(key, now)).0;
            && key !in Step(c, s, Reset(key)).0.records
            && key in failed.records
            && failed.records[key].blockedUntil ==
               if now - s.records[key].windowStart < c.window || c.maxFailures == 1 then Some(now + c.block) else None
  {
    BlockedStayFull(c, FRESH, before);
    assert key in Cleaned(c, After(c, FRESH, before), now).records;
  }

  /** A check after the run sees what is left of the block. */
  predicate SeesRest(c: Settings, s: State, ops: seq<Op>, key: Key, blockedUntil: int, until: int) {
    Step(c, After(c, s, ops), Check(key, until)).1 == if until < blockedUntil then blockedUntil - until else 0
  }

  /** However the key tries, after any such run a check sees exactly the rest of the original block. With `failing`
      only runs in which the key never succeeds are meant. */
  ghost predicate BlockStands(
      c: Settings, s: State, key: Key, open: nat, k: nat, t: int, blockedUntil: int, failing: bool)
    requires k > 0
  {
    forall ops, until ::
      && Ordered(ops, t) && t <= until && (failing ==> NeverSucceeds(ops, key))
      && TriesWhileBlocked(c, s, ops, key, open, k, blockedUntil, until)
      ==> SeesRest(c, s, ops, key, blockedUntil, until)
  }

  /** In every state an ordered run leads to: the block of a key stands still, whatever happens, if and only if none of
      its calls was let through and is still under way; and that holds also if the key never succeeds. */
  lemma BlockStandsIff(
      c: Settings, before: seq<Op>, start: int, key: Key, open: nat, k: nat, t: int, blockedUntil: int, failing: bool)
    requires c.Valid() && k > 0 && Ordered(before, start) && LastTime(before, start) <= t
    requires Blocked(After(c, FRESH, before), key, blockedUntil) && (if failing then t + 1 else t) < blockedUntil
    ensures BlockStands(c, After(c, FRESH, before), key, open, k, t, blockedUntil, failing) <==> open == 0
  {
    var s := After(c, FRESH, before);
    if open == 0 {
      forall ops, until |
        && Ordered(ops, t) && t <= until && (failing ==> NeverSucceeds(ops, key))
        && TriesWhileBlocked(c, s, ops, key, 0, k, blockedUntil, until)
        ensures SeesRest(c, s, ops, key, blockedUntil, until)
      {
        BlockNeverExtends(c, s, ops, key, k, t, blockedUntil, until);
      }
    } else if !failing {
      var ops := [Reset(key)];
      assert ops[1..] == [] && After(c, s, ops) == Step(c, s, ops[0]).0;
      assert TriesWhileBlocked(c, s, ops, key, open, k, blockedUntil, t) && Ordered(ops, t);
      assert !SeesRest(c, s, ops, key, blockedUntil, t);
    } else {
      LateResultsMoveBlock(c, before, key, blockedUntil, t + 1);
      BlocksBoundedLater(c, FRESH, before, start);
      var ops := [Fail(key, t + 1)];
      assert ops[1..] == [] && After(c, s, ops) == Step(c, s, ops[0]).0;
      assert TriesWhileBlocked(c, s, ops, key, open, k, blockedUntil, t + 1);
      var r := After(c, s, ops).records[key];
      assert r.blockedUntil == None || r.blockedUntil == Some(t + 1 + c.block);
      assert Ordered(ops, t) && NeverSucceeds(ops, key);
      assert !SeesRest(c, s, ops, key, blockedUntil, t + 1);
    }
  }

  /** The announced seconds are the least that suffice: after them the key reaches the credential check
      again, and a second earlier it does not. */
  lemma RetryAfterIsExact(c: Settings, s: State, key: Key, k: nat, t: int, ops: seq<Op>, until: int)
    requires c.Valid() && k > 0
    requires key in s.records && s.records[key].blockedUntil.Some? && t < s.records[key].blockedUntil.value
    requires Ordered(ops, t) && t <= until
    requires TriesWhileBlocked(c, s, ops, key, 0, k, s.records[key].blockedUntil.value, until)
    ensures var wait := Step(c, s, Check(key, t)).1;
            var again := Step(c, After(c, s, ops), Check(key, until)).1;
            && wait > 0
            && (until >= t + RetryAfterSeconds(wait) * SECOND ==> again == 0)
            && (until <= t + (RetryAfterSeconds(wait) - 1) * SECOND ==> again > 0)
  {
    BlockNeverExtends(c, s, ops, key, k, t, s.records[key].blockedUntil.value, until);
    SecondsCoverWait(s.records[key].blockedUntil.value - t);
  }

  ghost predicate BlocksBounded(c: Settings, s: State, now: int) {
    forall k :: k in s.records && s.records[k].blockedUntil.Some? ==> s.records[k].blockedUntil.value <= now + c.block
  }

  lemma {:induction false} BlocksStayBounded(c: Settings, s: State, ops: seq<Op>, t: int, i: nat)
    requires c.Valid()
    requires BlocksBounded(c, s, t)
    requires Ordered(ops, t)
    requires i < |ops|
    ensures |Answers(c, s, ops)| == |ops| && 0 <= Answers(c, s, ops)[i] <= c.block
    decreases ops
  {
    var s1 := Step(c, s, ops[0]).0;
    var t1 := if ops[0].Reset? then t else ops[0].now;
    assert BlocksBounded(c, s1, t1);
    if |ops| > 1 {
      BlocksStayBounded(c, s1, ops[1..], t1, if i > 0 then i - 1 else 0);
    }
  }

  /** No caller is ever told to wait longer than one block. */
  lemma WaitNeverExceedsBlock(c: Settings, ops: seq<Op>, t: int, i: nat)
    requires c.Valid()
    requires Ordered(ops, t)
    requires i < |ops|
    ensures |Answers(c, FRESH, ops)| == |ops| && 0 <= Answers(c, FRESH, ops)[i] <= c.block
  {
    BlocksStayBounded(c, FRESH, ops, t, i);
  }
}
