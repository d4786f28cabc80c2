/**
 The failure budget when clock values may go back. The limiter reads `now` before it takes its lock
 (internal/auth/limiter.go), so a call that waits for the lock presents a time that is older than those of calls
 before it. Here every clock value may lie up to `d` behind the latest one presented.
 */
module ClockSkew {
  import opened Options
  import opened FailureLimiter
  import opened FailureBudget

  function Later(top: int, op: Op): int {
    if op.Reset? || op.now < top then top else op.now
  }

  /** No clock value lies more than d behind the latest one, which is `top` at the start. */
  predicate NearlyOrdered(ops: seq<Op>, top: int, d: nat) {
    ops == [] || ((ops[0].Reset? || ops[0].now >= top - d) && NearlyOrdered(ops[1..], Later(top, ops[0]), d))
  }

  predicate IsSkewedRun(c: Settings, ops: seq<Op>, key: Key, k: nat, start: int, d: nat)
    requires k > 0
  {
    NearlyOrdered(ops, start, d) && AuthCalls(c, FRESH, ops, key, 0, k) && NeverSucceeds(ops, key)
  }

  /** The most failures one record can hold. */
  function Cap(c: Settings, k: nat): int {
    c.maxFailures + k - 1
  }

  /** Consecutive records of a key start at least this far apart. */
  function Gap(c: Settings, d: nat): int {
    c.window - 2 * d
  }

  /** How many records can have failures in one window length. */
  function RecordsPerWindow(c: Settings, d: nat): int
    requires Gap(c, d) > 0
  {
    (2 * c.window - 2 + d) / Gap(c, d) + 1
  }

  function SkewedBudget(c: Settings, k: nat, d: nat): int
    requires Gap(c, d) > 0
  {
    RecordsPerWindow(c, d) * Cap(c, k)
  }

  /** Where a record stands that is preceded by j records with failures in the interval. */
  function Earliest(c: Settings, d: nat, from: int, j: nat): int {
    from - c.window + 1 + j * Gap(c, d)
  }

  ghost predicate RecordFits(c: Settings, r: Record, open: nat, k: nat, d: nat, top: int) {
    && 1 <= r.failures && r.windowStart <= top
    && (r.blockedUntil.Some? <==> r.failures >= c.maxFailures)
    && (r.blockedUntil.Some? ==>
          r.failures + open <= Cap(c, k) && r.blockedUntil.value >= r.windowStart - d + c.window)
  }

  /** `n` failures of `key` were recorded in [from, from + window); j records had some of them before the present
      one. */
  ghost predicate SkewOk(
      c: Settings, records: Records, key: Key, open: nat, k: nat, d: nat, top: int, n: int, j: nat, from: int)
    requires Gap(c, d) > 0
  {
    && open <= k && 0 <= n <= SkewedBudget(c, k, d)
    && if key in records then
         && RecordFits(c, records[key], open, k, d, top)
         && n <= Cap(c, k) * j + records[key].failures
         && (n > 0 ==> records[key].windowStart >= Earliest(c, d, from, j))
       else
         n <= Cap(c, k) * j && (n > 0 ==> top - d >= Earliest(c, d, from, j))
  }

  lemma OneRecordMore(c: Settings, k: nat, d: nat, from: int, j: nat)
    ensures Cap(c, k) * (j + 1) == Cap(c, k) * j + Cap(c, k)
    ensures Earliest(c, d, from, j + 1) == Earliest(c, d, from, j) + Gap(c, d)
  {
  }

  lemma TimesMonotone(a: int, b: int, x: int)
    requires a <= b && x >= 0
    ensures a * x <= b * x
  {
  }

  lemma QuotientBelow(all: int, gap: int, m: nat)
    requires gap > 0 && 0 <= all < m * gap
    ensures all / gap < m
  {
    if all / gap >= m {
      TimesMonotone(m, all / gap, gap);
    }
  }

  lemma BeyondQuotient(j: nat, gap: int, all: int)
    requires gap > 0 && all >= 0 && j > all / gap
    ensures j * gap > all
  {
    var q := all / gap;
    TimesMonotone(q + 1, j, gap);
    assert (q + 1) * gap == q * gap + gap;
  }

  lemma QuotientBound(j: nat, gap: int, all: int)
    requires gap > 0 && 0 <= j * gap <= all
    ensures j <= all / gap
  {
    if j > all / gap {
      BeyondQuotient(j, gap, all);
    }
  }

  /** A record that can still get failures in the interval has few before it. */
  lemma FewRecords(c: Settings, k: nat, d: nat, from: int, j: nat, start: int, failures: int)
    requires Gap(c, d) > 0 && c.Valid() && k > 0 && failures <= Cap(c, k)
    requires Earliest(c, d, from, j) <= start <= from + c.window - 1 + d
    ensures Cap(c, k) * j + failures <= SkewedBudget(c, k, d)
  {
    var all, gap := 2 * c.window - 2 + d, Gap(c, d);
    QuotientBound(j, gap, all);
    TimesMonotone(j + 1, RecordsPerWindow(c, d), Cap(c, k));
    OneRecordMore(c, k, d, from, j);
  }

  /** The record goes away at a time `now`, by cleanup or by a check after its block. */
  lemma RecordEnds(
      c: Settings, records: Records, key: Key, open: nat, open1: nat, k: nat, d: nat, top: int, n: int, j: nat,
      from: int, after: Records, now: int)
    returns (j1: nat)
    requires c.Valid() && k > 0 && Gap(c, d) > 0 && open1 <= k
    requires SkewOk(c, records, key, open, k, d, top, n, j, from) && key in records && key !in after
    requires now <= top && now >= records[key].windowStart - d + c.window
    ensures SkewOk(c, after, key, open1, k, d, top, n, j1, from)
  {
    j1 := if n > 0 then j + 1 else 0;
    OneRecordMore(c, k, d, from, j);
  }

  lemma CleanupKeepsSkew(
      c: Settings, s: State, key: Key, open: nat, k: nat, d: nat, top: int, n: int, j: nat, from: int, now: int)
    returns (j1: nat)
    requires c.Valid() && k > 0 && Gap(c, d) > 0
    requires SkewOk(c, s.records, key, open, k, d, top, n, j, from) && now <= top
    ensures SkewOk(c, Cleaned(c, s, now).records, key, open, k, d, top, n, j1, from)
  {
    var after := Cleaned(c, s, now).records;
    j1 := j;
    if key in s.records && key !in after {
      j1 := RecordEnds(c, s.records, key, open, open, k, d, top, n, j, from, after, now);
    }
  }

  lemma CheckKeepsSkew(
      c: Settings, records: Records, key: Key, open: nat, k: nat, d: nat, top: int, n: int, j: nat, from: int, now: int)
    returns (j1: nat)
    requires c.Valid() && k > 0 && Gap(c, d) > 0
    requires SkewOk(c, records, key, open, k, d, top, n, j, from) && now <= top
    ensures var (after, wait) := PlainStep(c, records, Check(key, now));
            SkewOk(c, after, key, Opened(Check(key, now), key, wait, open, k).value, k, d, top, n, j1, from)
  {
    var (after, wait) := PlainStep(c, records, Check(key, now));
    j1 := j;
    if key in records && key !in after {
      var open1 := Opened(Check(key, now), key, wait, open, k).value;
      j1 := RecordEnds(c, records, key, open, open1, k, d, top, n, j, from, after, now);
    }
  }

  function Counts(now: int, from: int, window: int): int {
    if from <= now < from + window then 1 else 0
  }

  /** A failure in the present record. */
  lemma FailInRecord(
      c: Settings, records: Records, key: Key, open: nat, k: nat, d: nat, top: int, n: int, j: nat, from: int, now: int)
    returns (j1: nat)
    requires c.Valid() && c.block >= c.window && k > 0 && Gap(c, d) > 0 && open > 0
    requires SkewOk(c, records, key, open, k, d, top, n, j, from) && top - d <= now <= top
    requires key in records && now - records[key].windowStart < c.window
    ensures SkewOk(c, PlainStep(c, records, Fail(key, now)).0, key, open - 1, k, d, top,
                   n + Counts(now, from, c.window), j1, from)
  {
    var r := records[key];
    j1 := if n > 0 then j else 0;
    if Counts(now, from, c.window) == 1 {
      FewRecords(c, k, d, from, j1, r.windowStart, r.failures + 1);
    }
  }

  /** A failure that starts a record, after another one or after none. */
  lemma FailStartsRecord(
      c: Settings, records: Records, key: Key, open: nat, k: nat, d: nat, top: int, n: int, j: nat, from: int, now: int)
    returns (j1: nat)
    requires c.Valid() && c.block >= c.window && k > 0 && Gap(c, d) > 0 && open > 0
    requires SkewOk(c, records, key, open, k, d, top, n, j, from) && top - d <= now <= top
    requires key in records ==> now - records[key].windowStart >= c.window
    ensures SkewOk(c, PlainStep(c, records, Fail(key, now)).0, key, open - 1, k, d, top,
                   n + Counts(now, from, c.window), j1, from)
  {
    j1 := if n == 0 then 0 else if key in records then j + 1 else j;
    OneRecordMore(c, k, d, from, j);
    if Counts(now, from, c.window) == 1 {
      FewRecords(c, k, d, from, j1, now, 1);
    }
  }

  lemma StepKeepsSkew(
      c: Settings, s: State, op: Op, key: Key, open: nat, k: nat, d: nat, top: int, n: int, j: nat, from: int)
    returns (j1: nat)
    requires c.Valid() && c.block >= c.window && k > 0 && Gap(c, d) > 0
    requires SkewOk(c, s.records, key, open, k, d, top, n, j, from)
    requires if op.Reset? then op.key != key else top - d <= op.now
    requires Opened(op, key, Step(c, s, op).1, open, k).Some?
    ensures var (s1, wait) := Step(c, s, op);
            var n1 := n + if op.Fail? && op.key == key then Counts(op.now, from, c.window) else 0;
            SkewOk(c, s1.records, key, Opened(op, key, wait, open, k).value, k, d, Later(top, op), n1, j1, from)
  {
    j1 := j;
    if !op.Reset? {
      var top1, clean := Later(top, op), Cleaned(c, s, op.now).records;
      assert SkewOk(c, s.records, key, open, k, d, top1, n, j, from);
      j1 := CleanupKeepsSkew(c, s, key, open, k, d, top1, n, j, from, op.now);
      if op.key == key {
        if op.Check? {
          j1 := CheckKeepsSkew(c, clean, key, open, k, d, top1, n, j1, from, op.now);
        } else if key in clean && op.now - clean[key].windowStart < c.window {
          j1 := FailInRecord(c, clean, key, open, k, d, top1, n, j1, from, op.now);
        } else {
          j1 := FailStartsRecord(c, clean, key, open, k, d, top1, n, j1, from, op.now);
        }
      }
    }
  }

  lemma {:induction false} SkewKept(
      c: Settings, s: State, ops: seq<Op>, key: Key, open: nat, k: nat, d: nat, top: int, n: int, j: nat, from: int)
    requires c.Valid() && c.block >= c.window && k > 0 && Gap(c, d) > 0
    requires SkewOk(c, s.records, key, open, k, d, top, n, j, from)
    requires NearlyOrdered(ops, top, d) && AuthCalls(c, s, ops, key, open, k) && NeverSucceeds(ops, key)
    ensures n + Failures(ops, key, from, from + c.window) <= SkewedBudget(c, k, d)
    decreases ops
  {
    if ops != [] {
      var op := ops[0];
      var (s1, wait) := Step(c, s, op);
      var n1 := n + if op.Fail? && op.key == key then Counts(op.now, from, c.window) else 0;
      var j1 := StepKeepsSkew(c, s, op, key, open, k, d, top, n, j, from);
      SkewKept(c, s1, ops[1..], key, Opened(op, key, wait, open, k).value, k, d, Later(top, op), n1, j1, from);
    }
  }

  lemma ThreeRecords(c: Settings, k: nat, d: nat)
    requires c.Valid() && k > 0 && 2 * d < c.window && 7 * d < c.window + 2
    ensures SkewedBudget(c, k, d) <= 3 * (c.maxFailures + k - 1)
  {
    QuotientBelow(2 * c.window - 2 + d, Gap(c, d), 3);
    TimesMonotone(RecordsPerWindow(c, d), 3, Cap(c, k));
  }

  /** Clock values that go back by less than half a window: what one window length can hold grows with d to
      `RecordsPerWindow` full records, which are three as long as 7 * d < window + 2. */
  lemma SkewedBudgetHolds(c: Settings, ops: seq<Op>, key: Key, k: nat, start: int, d: nat, from: int)
    requires c.Valid() && c.block >= c.window && k > 0 && 2 * d < c.window
    requires IsSkewedRun(c, ops, key, k, start, d)
    ensures Failures(ops, key, from, from + c.window) <= SkewedBudget(c, k, d)
    ensures 7 * d < c.window + 2 ==> SkewedBudget(c, k, d) <= 3 * (c.maxFailures + k - 1)
  {
    SkewKept(c, FRESH, ops, key, 0, k, d, start, 0, 0, from);
    if 7 * d < c.window + 2 {
      ThreeRecords(c, k, d);
    }
  }

  /** One nanosecond is enough for a cleanup, started by another client, to remove a block that an older time still
      falls into. */
  lemma SkewedExample(c: Settings, ops: seq<Op>)
    requires c == Settings(1, 10, 10)
    requires ops == [Check("a", 0), Fail("a", 0), Check("b", 10), Check("a", 9), Fail("a", 9)]
    ensures AuthCalls(c, FRESH, ops, "a", 0, 1)
  {
    var empty, blocked := State(map[], Some(10)), State(map["a" := Record(1, 0, Some(10))], Some(10));
    var cleaned := State(map[], Some(20));
    assert Step(c, FRESH, ops[0]) == (empty, 0) && Step(c, empty, ops[1]) == (blocked, 0);
    assert Step(c, blocked, ops[2]) == (cleaned, 0) && Step(c, cleaned, ops[3]) == (cleaned, 0);
    assert AuthCalls(c, cleaned, ops[4..], "a", 1, 1);
    assert ops[3..][1..] == ops[4..] && AuthCalls(c, cleaned, ops[3..], "a", 0, 1);
    assert ops[2..][1..] == ops[3..] && AuthCalls(c, blocked, ops[2..], "a", 0, 1);
    assert ops[1..][1..] == ops[2..] && AuthCalls(c, empty, ops[1..], "a", 1, 1);
  }

  /** So the budget for ordered times does not cover times that go back. */
  lemma SkewBreaksBudget()
    ensures var c := Settings(1, 10, 10);
            var ops := [Check("a", 0), Fail("a", 0), Check("b", 10), Check("a", 9), Fail("a", 9)];
            && IsSkewedRun(c, ops, "a", 1, 0, 1)
            && Failures(ops, "a", 0, 10) == 2 && Budget(c, 1) == 1
  {
    var c := Settings(1, 10, 10);
    var ops := [Check("a", 0), Fail("a", 0), Check("b", 10), Check("a", 9), Fail("a", 9)];
    SkewedExample(c, ops);
    assert ops[1..][1..] == ops[2..] && ops[2..][1..] == ops[3..] && ops[3..][1..] == ops[4..] && ops[4..][1..] == [];
  }
}
