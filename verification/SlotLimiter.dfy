/**
 The concurrency limiter of internal/proxy/limits.go: a total, a per-key map, and release functions
 that take effect once. `World` adds the tickets handed out, so that runs of acquires and (repeated)
 releases can be studied.
 */
module SlotLimiter {
  import opened Options

  type Key = string

  datatype Limits = Limits(maxTotal: int, maxPerKey: int)

  datatype Slots = Slots(total: int, perKey: map<Key, int>)

  const NO_SLOTS := Slots(0, map[])

  function Named(key: Key): Key {
    if key == "" then "unknown" else key
  }

  function Held(s: Slots, key: Key): int {
    if key in s.perKey then s.perKey[key] else 0
  }

  predicate Full(l: Limits, s: Slots, key: Key) {
    s.total >= l.maxTotal || Held(s, Named(key)) >= l.maxPerKey
  }

  function Taken(s: Slots, key: Key): Slots {
    Slots(s.total + 1, s.perKey[Named(key) := Held(s, Named(key)) + 1])
  }

  function GivenBack(s: Slots, key: Key): Slots {
    var left := Held(s, Named(key)) - 1;
    Slots(s.total - 1, if left == 0 then s.perKey - {Named(key)} else s.perKey[Named(key) := left])
  }

  // ---------------------------------------------------------------- runs

  datatype Ticket = Ticket(key: Key, released: bool)

  datatype World = World(slots: Slots, tickets: seq<Ticket>)

  /** tryAcquire for a key, or a call of the i-th release function handed out (possibly again). */
  datatype Op = Acquire(key: Key) | Release(i: nat)

  const START := World(NO_SLOTS, [])

  predicate Granted(l: Limits, w: World, op: Op) {
    op.Acquire? && !Full(l, w.slots, op.key)
  }

  function Do(l: Limits, w: World, op: Op): World {
    match op
    case Acquire(key) =>
      if Full(l, w.slots, key) then w
      else World(Taken(w.slots, key), w.tickets + [Ticket(Named(key), false)])
    case Release(i) =>
      if i >= |w.tickets| || w.tickets[i].released then w
      else World(GivenBack(w.slots, w.tickets[i].key), w.tickets[i := w.tickets[i].(released := true)])
  }

  function DoAll(l: Limits, w: World, ops: seq<Op>): World
    decreases ops
  {
    if ops == [] then w else DoAll(l, Do(l, w, ops[0]), ops[1..])
  }

  /** Tickets not given back yet, all of them and those of one key. */
  function Open(tickets: seq<Ticket>): nat {
    if tickets == [] then 0 else (if tickets[0].released then 0 else 1) + Open(tickets[1..])
  }

  function OpenFor(tickets: seq<Ticket>, key: Key): nat {
    if tickets == [] then 0
    else (if !tickets[0].released && tickets[0].key == key then 1 else 0) + OpenFor(tickets[1..], key)
  }

  /** The sum of the per-key map. */
  ghost function Sum<K>(m: map<K, int>): int
    decreases m.Keys
  {
    if m.Keys == {} then 0 else
      var k :| k in m.Keys;
      m[k] + Sum(m - {k})
  }

  ghost predicate Conserved(l: Limits, w: World) {
    && w.slots.total == Open(w.tickets)
    && Sum(w.slots.perKey) == w.slots.total
    && (forall k :: Held(w.slots, k) == OpenFor(w.tickets, k))
    && (forall k :: k in w.slots.perKey ==> 1 <= w.slots.perKey[k] <= l.maxPerKey)
    && (w.slots.total == 0 || w.slots.total <= l.maxTotal)
    && (forall i :: 0 <= i < |w.tickets| ==> w.tickets[i].key != "")
  }

  lemma {:induction false} SumWithout<K>(m: map<K, int>, k: K)
    requires k in m
    ensures Sum(m) == m[k] + Sum(m - {k})
    decreases m.Keys
  {
    var j :| j in m.Keys && Sum(m) == m[j] + Sum(m - {j});
    if j != k {
      SumWithout(m - {j}, k);
      SumWithout(m - {k}, j);
      assert m - {j} - {k} == m - {k} - {j};
    }
  }

  lemma SumSet<K>(m: map<K, int>, k: K, v: int)
    ensures Sum(m[k := v]) == Sum(m - {k}) + v
    ensures Sum(m - {k}) == Sum(m) - (if k in m then m[k] else 0)
  {
    SumWithout(m[k := v], k);
    assert m[k := v] - {k} == m - {k};
    if k in m {
      SumWithout(m, k);
    } else {
      assert m - {k} == m;
    }
  }

  lemma {:induction false} OpenAppend(tickets: seq<Ticket>, t: Ticket, key: Key)
    ensures Open(tickets + [t]) == Open(tickets) + (if t.released then 0 else 1)
    ensures OpenFor(tickets + [t], key) == OpenFor(tickets, key) + (if !t.released && t.key == key then 1 else 0)
  {
    if tickets != [] {
      OpenAppend(tickets[1..], t, key);
      assert (tickets + [t])[1..] == tickets[1..] + [t];
    }
  }

  lemma {:induction false} OpenReleased(tickets: seq<Ticket>, i: nat, key: Key)
    requires i < |tickets| && !tickets[i].released
    ensures var after := tickets[i := tickets[i].(released := true)];
            && Open(after) == Open(tickets) - 1
            && OpenFor(after, key) == OpenFor(tickets, key) - (if tickets[i].key == key then 1 else 0)
  {
    if i > 0 {
      OpenReleased(tickets[1..], i - 1, key);
    }
  }

  lemma AcquireConserves(l: Limits, w: World, key: Key)
    requires Conserved(l, w) && !Full(l, w.slots, key)
    ensures Conserved(l, Do(l, w, Acquire(key)))
  {
    var w1 := Do(l, w, Acquire(key));
    var k := Named(key);
    forall j ensures Held(w1.slots, j) == OpenFor(w1.tickets, j) {
      OpenAppend(w.tickets, Ticket(k, false), j);
      assert Held(w.slots, j) == OpenFor(w.tickets, j);
    }
    OpenAppend(w.tickets, Ticket(k, false), k);
    SumSet(w.slots.perKey, k, Held(w.slots, k) + 1);
  }

  lemma ReleaseConserves(l: Limits, w: World, i: nat)
    requires Conserved(l, w) && i < |w.tickets| && !w.tickets[i].released
    ensures Conserved(l, Do(l, w, Release(i)))
  {
    var w1 := Do(l, w, Release(i));
    var k := w.tickets[i].key;
    OpenReleased(w.tickets, i, k);
    assert Held(w.slots, k) == OpenFor(w.tickets, k);
    forall j ensures Held(w1.slots, j) == OpenFor(w1.tickets, j) {
      OpenReleased(w.tickets, i, j);
    }
    SumSet(w.slots.perKey, k, Held(w.slots, k) - 1);
  }

  lemma DoConserves(l: Limits, w: World, op: Op)
    requires Conserved(l, w)
    ensures Conserved(l, Do(l, w, op))
  {
    match op
    case Acquire(key) =>
      if !Full(l, w.slots, key) {
        AcquireConserves(l, w, key);
      }
    case Release(i) =>
      if i < |w.tickets| && !w.tickets[i].released {
        ReleaseConserves(l, w, i);
      }
  }

  lemma {:induction false} AllConserved(l: Limits, w: World, ops: seq<Op>)
    requires Conserved(l, w)
    ensures Conserved(l, DoAll(l, w, ops))
    decreases ops
  {
    if ops != [] {
      DoConserves(l, w, ops[0]);
      AllConserved(l, Do(l, w, ops[0]), ops[1..]);
    }
  }

  /** In every run: the total, the sum of the map and the number of open tickets agree, the map counts
      the open tickets of each key and stores no zero, and both limits hold. */
  lemma SlotsConserved(l: Limits, ops: seq<Op>)
    ensures Conserved(l, DoAll(l, START, ops))
  {
    AllConserved(l, START, ops);
  }

  /** A refusal means that as many tickets are really open as one of the limits allows. */
  lemma RefusedOnlyWhenFull(l: Limits, ops: seq<Op>, key: Key)
    ensures var w := DoAll(l, START, ops);
            !Granted(l, w, Acquire(key)) <==>
            Open(w.tickets) >= l.maxTotal || OpenFor(w.tickets, Named(key)) >= l.maxPerKey
  {
    SlotsConserved(l, ops);
  }

  function ReleaseFrom(i: nat, n: nat): seq<Op>
    requires i <= n
    decreases n - i
  {
    if i == n then [] else [Release(i)] + ReleaseFrom(i + 1, n)
  }

  lemma {:induction false} ReleaseRest(l: Limits, w: World, i: nat)
    requires i <= |w.tickets|
    requires forall j :: 0 <= j < i ==> w.tickets[j].released
    ensures var after := DoAll(l, w, ReleaseFrom(i, |w.tickets|));
            |after.tickets| == |w.tickets| && forall j :: 0 <= j < |after.tickets| ==> after.tickets[j].released
    decreases |w.tickets| - i
  {
    if i < |w.tickets| {
      ReleaseRest(l, Do(l, w, Release(i)), i + 1);
    }
  }

  lemma {:induction false} NoneOpen(tickets: seq<Ticket>, key: Key)
    requires forall j :: 0 <= j < |tickets| ==> tickets[j].released
    ensures Open(tickets) == 0 && OpenFor(tickets, key) == 0
  {
    if tickets != [] {
      NoneOpen(tickets[1..], key);
    }
  }

  /** After any run, calling every release function (again or for the first time) restores the empty limiter. */
  lemma ReleasingAllRestores(l: Limits, ops: seq<Op>)
    ensures var w := DoAll(l, START, ops);
            DoAll(l, w, ReleaseFrom(0, |w.tickets|)).slots == NO_SLOTS
  {
    var w := DoAll(l, START, ops);
    var end := DoAll(l, w, ReleaseFrom(0, |w.tickets|));
    SlotsConserved(l, ops);
    AllConserved(l, w, ReleaseFrom(0, |w.tickets|));
    ReleaseRest(l, w, 0);
    forall k ensures k !in end.slots.perKey {
      NoneOpen(end.tickets, k);
    }
  }

  // ---------------------------------------------------------------- the imperative limiter

  /** The sync.Once of one release function. */
  class Once {
    const key: Key
    var used: bool

    constructor (k: Key)
      ensures key == k && !used
    {
      key := k;
      used := false;
    }
  }

  class ConcurrentLimiter {
    const limits: Limits
    var total: int
    var perKey: map<Key, int>

    ghost function View(): Slots
      reads this
    {
      Slots(total, perKey)
    }

    constructor (l: Limits)
      ensures limits == l && View() == NO_SLOTS
    {
      limits := l;
      total := 0;
      perKey := map[];
    }

    method TryAcquire(key: Key) returns (release: Once?)
      modifies this
      ensures release == null <==> Full(limits, old(View()), key)
      ensures release == null ==> View() == old(View())
      ensures release != null ==>
                fresh(release) && release.key == Named(key) && !release.used && View() == Taken(old(View()), key)
    {
      var name := key;
      if name == "" {
        name := "unknown";
      }
      var held := if name in perKey then perKey[name] else 0;
      if total >= limits.maxTotal || held >= limits.maxPerKey {
        return null;
      }
      total := total + 1;
      perKey := perKey[name := held + 1];
      release := new Once(name);
    }

    method Release(release: Once)
      requires release.key != ""
      modifies this, release
      ensures release.used
      ensures View() == if old(release.used) then old(View()) else GivenBack(old(View()), release.key)
    {
      if release.used {
        return;
      }
      release.used := true;
      total := total - 1;
      var left := (if release.key in perKey then perKey[release.key] else 0) - 1;
      perKey := perKey[release.key := left];
      if perKey[release.key] == 0 {
        perKey := perKey - {release.key};
      }
      assert left == 0 ==> perKey == old(perKey) - {release.key};
    }

    /** limitedListener.Accept over the connections that arrive before the listener fails. While it waits for
        connection i, other goroutines may give slots back or take them, which is `others(i)`. It hands out the first
        connection that gets a slot, closes exactly the refused ones before it, and refusals cost nothing. */
    method Accept(arrivals: seq<Key>, others: nat -> Slots -> Slots)
      returns (accepted: Option<nat>, closed: seq<nat>, release: Once?)
      modifies this
      ensures accepted.None? <==>
                forall j :: 0 <= j < |arrivals| ==> Full(limits, Meanwhile(others, old(View()), j + 1), arrivals[j])
      ensures accepted.Some? <==> release != null
      ensures accepted.Some? ==>
                && accepted.value < |arrivals|
                && !Full(limits, Meanwhile(others, old(View()), accepted.value + 1), arrivals[accepted.value])
                && View() == Taken(Meanwhile(others, old(View()), accepted.value + 1), arrivals[accepted.value])
                && fresh(release) && release.key == Named(arrivals[accepted.value]) && !release.used
      ensures accepted.None? ==> View() == Meanwhile(others, old(View()), |arrivals|)
      ensures |closed| == if accepted.Some? then accepted.value else |arrivals|
      ensures forall j :: 0 <= j < |closed| ==>
                closed[j] == j && Full(limits, Meanwhile(others, old(View()), j + 1), arrivals[j])
    {
      accepted, closed, release := None, [], null;
      for i := 0 to |arrivals|
        invariant View() == Meanwhile(others, old(View()), i)
        invariant |closed| == i
        invariant forall j :: 0 <= j < i ==>
                    closed[j] == j && Full(limits, Meanwhile(others, old(View()), j + 1), arrivals[j])
      {
        var now := others(i)(Slots(total, perKey));
        total, perKey := now.total, now.perKey;
        assert View() == Meanwhile(others, old(View()), i + 1);
        release := TryAcquire(arrivals[i]);
        if release != null {
          accepted := Some(i);
          return;
        }
        closed := closed + [i];
      }
      release := null;
    }
  }

  /** The slots when i connections have come and been refused, and the others had their turn before each. */
  function Meanwhile(others: nat -> Slots -> Slots, s: Slots, i: nat): Slots {
    if i == 0 then s else others(i - 1)(Meanwhile(others, s, i - 1))
  }
}
