/**
 The life of CONNECT tunnels and their shutdown: handleTunneling, relayHTTP1Tunnel and relayHTTP2Tunnel
 (internal/proxy/server.go), the tunnel registry (internal/tunnel/tunnel.go), the tunnel limiter
 (internal/proxy/limits.go) and the shutdown sequence of Run (internal/proxy/run.go).

 Any number of handlers interleave with CloseAll and Wait. Every locked region and every Close call is
 one step; the deferred calls of a handler run in their reversed order.
 */
module TunnelLifecycle {
  import opened Options
  import opened SlotLimiter

  type Id = nat

  datatype Proto = Http1 | Http2

  /** Where a handler stands, that is, what it does next. */
  datatype Phase =
    | Arrived         // tryAcquire
    | Slotted         // approve the destination, check the protocol, dial
    | Dialed          // HTTP/1: hijack the client connection; HTTP/2: Track
    | Hijacked        // Track
    | DropDest        // close the destination after a failed hijack or a refused Track
    | DropClient      // close the hijacked client after a refused Track
    | Relaying        // tracked; copying, then the deferred close of the client side
    | CloseDest       // deferred close of the destination
    | Untracking      // deferred release of the registry entry
    | Releasing       // deferred release of the slot
    | Finished

  datatype Handler = Handler(
    key: Key,
    proto: Proto,
    phase: Phase,
    admitted: bool,       // got a slot
    dialed: bool,         // opened a destination connection
    hijacked: bool,       // owns the client connection
    tracked: bool,        // Track succeeded
    clientClosed: bool,
    destClosed: bool,
    relayOver: bool,      // the peers' own doing, or an error, ended the relay
    owes: bool,           // the relay has data for its HTTP/2 client, in hand or buffered
    givenBack: nat)       // how often the slot was given back

  /** The registry over pairs of type T; `waiting` is the wait group's counter. */
  datatype Registry<T> = Registry(closing: bool, active: set<T>, waiting: int)

  /** Run's own progress. Closing holds the snapshot CloseAll still has to close, and the pair whose
      client side is closed already. */
  datatype Shutdown = Serving | Closing(todo: set<Id>, half: Option<Id>) | ClosedAll | Drained

  datatype State = State(
    slots: Slots,
    registry: Registry<Id>,
    handlers: map<Id, Handler>,
    shutdown: Shutdown)

  const BOOT := State(NO_SLOTS, Registry(false, {}, 0), map[], Serving)

  /** What a handler does, or what happens to it. */
  datatype Action =
    | Acquire
    | FailBeforeDial
    | Dial
    | Hijack(ok: bool)
    | Track
    | DropDestConn
    | DropClientConn
    | RelayCloses(client: bool, dest: bool)  // idle timeout or interrupt of the relay
    | RelayEnds                              // end of the streams, or a failure of the peers
    | DataComes                              // from the destination, for an HTTP/2 client
    | ClientTakes                            // all of it
    | CloseClientConn
    | CloseDestConn
    | Untrack
    | ReleaseSlot

  datatype Step =
    | Arrive(id: Id, key: Key, proto: Proto)
    | Move(id: Id, act: Action)
    | BeginCloseAll
    | CloseAllClient(id: Id)
    | CloseAllDest
    | EndCloseAll
    | WaitDone

  // ---------------------------------------------------------------- the registry

  function Tracked<T>(r: Registry<T>, id: T): Registry<T> {
    if r.closing then r else r.(active := r.active + {id}, waiting := r.waiting + 1)
  }

  function Untracked<T(==)>(r: Registry<T>, id: T): Registry<T> {
    if id in r.active then r.(active := r.active - {id}, waiting := r.waiting - 1) else r
  }

  /** The release function can be called again: only the first call counts. */
  lemma UntrackOnce<T>(r: Registry<T>, id: T)
    ensures Untracked(Untracked(r, id), id) == Untracked(r, id)
    ensures id !in r.active ==> Untracked(r, id) == r
    ensures !r.closing && id !in r.active ==> Untracked(Tracked(r, id), id) == r
  {
  }

  // ---------------------------------------------------------------- the transition system

  /** What makes the relay return: its own end, or that both connections are closed under it. The client side of an
      HTTP/2 tunnel is the request body, so closing it does not cut a write to the client, and data the relay has or
      still finds buffered is written first. */
  predicate RelayReturns(h: Handler) {
    h.relayOver || (h.clientClosed && h.destClosed && !h.owes)
  }

  /** When an action can happen. */
  predicate Fits(h: Handler, act: Action) {
    match act
    case Acquire => h.phase == Arrived
    case FailBeforeDial => h.phase == Slotted
    case Dial => h.phase == Slotted
    case Hijack(_) => h.phase == Dialed && h.proto == Http1
    case Track => h.phase == Hijacked || (h.phase == Dialed && h.proto == Http2)
    case DropDestConn => h.phase == DropDest
    case DropClientConn => h.phase == DropClient
    case RelayCloses(_, _) => h.phase == Relaying
    case RelayEnds => h.phase == Relaying
    case DataComes => h.phase == Relaying && h.proto == Http2 && !h.relayOver && !h.destClosed
    case ClientTakes => h.owes
    case CloseClientConn => h.phase == Relaying && RelayReturns(h)
    case CloseDestConn => h.phase == CloseDest
    case Untrack => h.phase == Untracking
    case ReleaseSlot => h.phase == Releasing
  }

  predicate Enabled(s: State, step: Step) {
    match step
    case Arrive(id, _, _) => id !in s.handlers
    case Move(id, act) => id in s.handlers && Fits(s.handlers[id], act)
    case BeginCloseAll => s.shutdown.Serving?
    case CloseAllClient(id) => s.shutdown.Closing? && s.shutdown.half.None? && id in s.shutdown.todo && id in s.handlers
    case CloseAllDest => s.shutdown.Closing? && s.shutdown.half.Some? && s.shutdown.half.value in s.handlers
    case EndCloseAll => s.shutdown.Closing? && s.shutdown.half.None? && s.shutdown.todo == {}
    case WaitDone => s.shutdown.ClosedAll? && s.registry.waiting == 0
  }

  /** Where an action leads its handler; `full` and `closing` are what it finds in the limiter and the registry. */
  function NextPhase(h: Handler, act: Action, full: bool, closing: bool): Phase {
    match act
    case Acquire => if full then Finished else Slotted
    case FailBeforeDial => Releasing
    case Dial => Dialed
    case Hijack(ok) => if ok then Hijacked else DropDest
    case Track => if closing then DropDest else Relaying
    case DropDestConn => if h.hijacked then DropClient else Releasing
    case DropClientConn => Releasing
    case CloseClientConn => CloseDest
    case CloseDestConn => Untracking
    case Untrack => Releasing
    case ReleaseSlot => Finished
    case _ => h.phase
  }

  /** The handler after an action. Flags are only ever raised, except for data that is taken. */
  function Moved(h: Handler, act: Action, full: bool, closing: bool): Handler {
    h.(phase := NextPhase(h, act, full, closing),
       admitted := h.admitted || (act.Acquire? && !full),
       dialed := h.dialed || act.Dial?,
       hijacked := h.hijacked || (act.Hijack? && act.ok),
       tracked := h.tracked || (act.Track? && !closing),
       clientClosed := h.clientClosed || act.DropClientConn? || act.CloseClientConn?
                       || (act.RelayCloses? && act.client),
       destClosed := h.destClosed || act.DropDestConn? || act.CloseDestConn? || (act.RelayCloses? && act.dest),
       relayOver := h.relayOver || act.RelayEnds?,
       owes := act.DataComes? || (h.owes && !act.ClientTakes? && !act.RelayEnds?),
       givenBack := h.givenBack + if act.ReleaseSlot? then 1 else 0)
  }

  function NewHandler(key: Key, proto: Proto): Handler {
    Handler(key, proto, Arrived, false, false, false, false, false, false, false, false, 0)
  }

  function Apply(l: Limits, s: State, step: Step): State
    requires Enabled(s, step)
  {
    match step
    case Arrive(id, key, proto) => s.(handlers := s.handlers[id := NewHandler(key, proto)])
    case Move(id, act) =>
      var h := s.handlers[id];
      var full := Full(l, s.slots, h.key);
      s.(handlers := s.handlers[id := Moved(h, act, full, s.registry.closing)],
         slots := if act.Acquire? && !full then Taken(s.slots, h.key)
                  else if act.ReleaseSlot? then GivenBack(s.slots, h.key)
                  else s.slots,
         registry := if act.Track? then Tracked(s.registry, id)
                     else if act.Untrack? then Untracked(s.registry, id)
                     else s.registry)
    case BeginCloseAll =>
      s.(registry := s.registry.(closing := true), shutdown := Closing(s.registry.active, None))
    case CloseAllClient(id) =>
      s.(handlers := s.handlers[id := s.handlers[id].(clientClosed := true)],
         shutdown := Closing(s.shutdown.todo - {id}, Some(id)))
    case CloseAllDest =>
      var id := s.shutdown.half.value;
      s.(handlers := s.handlers[id := s.handlers[id].(destClosed := true)],
         shutdown := Closing(s.shutdown.todo, None))
    case EndCloseAll => s.(shutdown := ClosedAll)
    case WaitDone => s.(shutdown := Drained)
  }

  ghost predicate Runs(l: Limits, s: State, steps: seq<Step>)
    decreases steps
  {
    steps == [] || (Enabled(s, steps[0]) && Runs(l, Apply(l, s, steps[0]), steps[1..]))
  }

  ghost function Exec(l: Limits, s: State, steps: seq<Step>): State
    requires Runs(l, s, steps)
    decreases steps
  {
    if steps == [] then s else Exec(l, Apply(l, s, steps[0]), steps[1..])
  }

  // ---------------------------------------------------------------- the invariant

  predicate Registered(p: Phase) {
    p.Relaying? || p.CloseDest? || p.Untracking?
  }

  predicate HoldsSlot(p: Phase) {
    !p.Arrived? && !p.Finished?
  }

  predicate Over(p: Phase) {
    p.Releasing? || p.Finished?
  }

  predicate HandlerOk(h: Handler) {
    && (h.phase.Arrived? ==> !h.admitted)
    && (HoldsSlot(h.phase) ==> h.admitted)
    && h.givenBack == (if h.admitted && h.phase.Finished? then 1 else 0)
    && (h.phase.Arrived? || h.phase.Slotted? ==> !h.dialed)
    && (h.dialed ==> h.admitted)
    && (h.phase.Dialed? || h.phase.Hijacked? || h.phase.DropDest? ==> h.dialed)
    && (h.hijacked ==> h.dialed)
    && (h.phase.DropClient? ==> h.hijacked)
    && (h.tracked ==> h.dialed && (Registered(h.phase) || Over(h.phase)))
    && (Registered(h.phase) ==> h.tracked)
    && (h.phase.CloseDest? ==> h.clientClosed && (h.relayOver || h.destClosed))
    && (h.phase.Untracking? ==> h.clientClosed && h.destClosed)
    && (h.phase.DropClient? ==> h.destClosed)
    && (h.tracked && Over(h.phase) ==> h.clientClosed && h.destClosed)
    && (h.dialed && Over(h.phase) ==> h.destClosed)
    && (h.hijacked && Over(h.phase) ==> h.clientClosed)
    && (h.owes ==> h.phase.Relaying? && !h.relayOver)
  }

  /** The handlers that hold a slot, and those that hold one under a given key. */
  ghost function Holders(handlers: map<Id, Handler>): set<Id> {
    Where(handlers, HoldingAny())
  }

  ghost function HoldersOf(handlers: map<Id, Handler>, key: Key): set<Id> {
    Where(handlers, Holding(key))
  }

  ghost function InRegistry(): Handler -> bool {
    (h: Handler) => Registered(h.phase)
  }

  ghost function HoldingAny(): Handler -> bool {
    (h: Handler) => HoldsSlot(h.phase)
  }

  ghost function Holding(key: Key): Handler -> bool {
    (h: Handler) => HoldsSlot(h.phase) && Named(h.key) == key
  }

  ghost function Where(handlers: map<Id, Handler>, f: Handler -> bool): set<Id> {
    set id | id in handlers && f(handlers[id])
  }

  ghost predicate SlotsOk(l: Limits, s: State) {
    && s.slots.total == |Holders(s.handlers)|
    && (forall k :: Held(s.slots, k) == |HoldersOf(s.handlers, k)|)
    && (forall k :: k in s.slots.perKey ==> 1 <= s.slots.perKey[k] <= l.maxPerKey)
    && (s.slots.total == 0 || s.slots.total <= l.maxTotal)
  }

  ghost predicate RegistryOk(s: State) {
    && s.registry.active == Where(s.handlers, InRegistry())
    && s.registry.waiting == |s.registry.active|
  }

  /** Once closing, every pair ever tracked is closed or still on CloseAll's list. */
  ghost predicate ShutdownOk(s: State) {
    && (s.shutdown.Serving? <==> !s.registry.closing)
    && (s.shutdown.Drained? ==> s.registry.active == {})
    && (s.shutdown.Closing? ==> s.shutdown.todo <= s.handlers.Keys)
    && (s.shutdown.Closing? && s.shutdown.half.Some? ==>
          s.shutdown.half.value in s.handlers && s.handlers[s.shutdown.half.value].clientClosed)
    && (s.registry.closing ==> forall id :: id in s.handlers && s.handlers[id].tracked ==>
          || (s.handlers[id].clientClosed && s.handlers[id].destClosed)
          || (s.shutdown.Closing? && (id in s.shutdown.todo || s.shutdown.half == Some(id))))
  }

  ghost predicate Inv(l: Limits, s: State) {
    && (forall id :: id in s.handlers ==> HandlerOk(s.handlers[id]))
    && SlotsOk(l, s)
    && RegistryOk(s)
    && ShutdownOk(s)
  }

  /** Putting one handler into the table changes a counted set by that handler only. */
  lemma PutHandler(handlers: map<Id, Handler>, id: Id, h: Handler, f: Handler -> bool)
    ensures Where(handlers[id := h], f) == if f(h) then Where(handlers, f) + {id} else Where(handlers, f) - {id}
  {
  }

  lemma PutCount(handlers: map<Id, Handler>, id: Id, h: Handler, f: Handler -> bool)
    ensures |Where(handlers[id := h], f)| ==
            |Where(handlers, f)| + (if f(h) then 1 else 0) - (if id in handlers && f(handlers[id]) then 1 else 0)
  {
    PutHandler(handlers, id, h, f);
  }

  /** What a slot change does: nothing, one more under the handler's key, or one less. */
  predicate Changes(l: Limits, before: Slots, key: Key, held: bool, holds: bool, after: Slots) {
    if holds == held then after == before
    else if held then after == GivenBack(before, key)
    else !Full(l, before, key) && after == Taken(before, key)
  }

  lemma HeldFollows(l: Limits, s: State, id: Id, h: Handler, slots: Slots, k: Key)
    requires SlotsOk(l, s) && (id in s.handlers ==> s.handlers[id].key == h.key)
    requires Changes(l, s.slots, h.key, id in s.handlers && HoldsSlot(s.handlers[id].phase), HoldsSlot(h.phase), slots)
    ensures Held(slots, k) == |HoldersOf(s.handlers[id := h], k)|
  {
    PutCount(s.handlers, id, h, Holding(k));
    assert Held(s.slots, k) == |HoldersOf(s.handlers, k)|;
  }

  lemma TotalFollows(l: Limits, s: State, id: Id, h: Handler, slots: Slots)
    requires SlotsOk(l, s) && (id in s.handlers ==> s.handlers[id].key == h.key)
    requires Changes(l, s.slots, h.key, id in s.handlers && HoldsSlot(s.handlers[id].phase), HoldsSlot(h.phase), slots)
    ensures slots.total == |Holders(s.handlers[id := h])|
    ensures slots.total == 0 || slots.total <= l.maxTotal
  {
    PutCount(s.handlers, id, h, HoldingAny());
  }

  /** The slot counts stay right when the limiter and one handler change together. */
  lemma SlotsFollow(l: Limits, s: State, id: Id, h: Handler, slots: Slots)
    requires SlotsOk(l, s) && (id in s.handlers ==> s.handlers[id].key == h.key)
    requires Changes(l, s.slots, h.key, id in s.handlers && HoldsSlot(s.handlers[id].phase), HoldsSlot(h.phase), slots)
    ensures SlotsOk(l, s.(handlers := s.handlers[id := h], slots := slots))
  {
    TotalFollows(l, s, id, h, slots);
    forall k ensures Held(slots, k) == |HoldersOf(s.handlers[id := h], k)| {
      HeldFollows(l, s, id, h, slots, k);
    }
    HeldFollows(l, s, id, h, slots, Named(h.key));
  }

  lemma RegistryFollows(s: State, id: Id, h: Handler, registry: Registry<Id>)
    requires RegistryOk(s)
    requires var held := id in s.handlers && Registered(s.handlers[id].phase);
             if Registered(h.phase) == held
             then registry.active == s.registry.active && registry.waiting == s.registry.waiting
             else if held then registry == Untracked(s.registry, id)
             else !s.registry.closing && registry == Tracked(s.registry, id)
    ensures RegistryOk(s.(handlers := s.handlers[id := h], registry := registry))
  {
    PutHandler(s.handlers, id, h, InRegistry());
    assert id in Where(s.handlers, InRegistry()) <==> id in s.handlers && Registered(s.handlers[id].phase);
  }

  /** Closed connections stay closed, and while the registry is closing nothing gets tracked. */
  predicate Advances(h: Handler, m: Handler, closing: bool) {
    && (h.clientClosed ==> m.clientClosed) && (h.destClosed ==> m.destClosed)
    && (closing && m.tracked ==> h.tracked)
  }

  /** Everything the proofs need to know about one handler's move. */
  lemma MovedOk(h: Handler, act: Action, full: bool, closing: bool)
    requires HandlerOk(h) && Fits(h, act)
    ensures var m := Moved(h, act, full, closing);
            && HandlerOk(m) && m.key == h.key && Advances(h, m, closing)
            && HoldsSlot(h.phase) == !act.Acquire?
            && HoldsSlot(m.phase) == (if act.Acquire? then !full else !act.ReleaseSlot?)
            && (act.Track? ==> !Registered(h.phase)) && (act.Untrack? ==> Registered(h.phase))
            && Registered(m.phase) == (if act.Track? then !closing else !act.Untrack? && Registered(h.phase))
  {
  }

  lemma MoveKeepsCounts(l: Limits, s: State, id: Id, act: Action)
    requires Enabled(s, Move(id, act)) && HandlerOk(s.handlers[id])
    requires SlotsOk(l, s) && RegistryOk(s)
    ensures SlotsOk(l, Apply(l, s, Move(id, act))) && RegistryOk(Apply(l, s, Move(id, act)))
  {
    var s1, h := Apply(l, s, Move(id, act)), s.handlers[id];
    MovedOk(h, act, Full(l, s.slots, h.key), s.registry.closing);
    SlotsFollow(l, s, id, s1.handlers[id], s1.slots);
    RegistryFollows(s, id, s1.handlers[id], s1.registry);
  }

  lemma OtherStepKeepsCounts(l: Limits, s: State, step: Step)
    requires !step.Move? && Enabled(s, step)
    requires SlotsOk(l, s) && RegistryOk(s)
    ensures SlotsOk(l, Apply(l, s, step)) && RegistryOk(Apply(l, s, step))
  {
    var s1 := Apply(l, s, step);
    if step.Arrive? || step.CloseAllClient? || step.CloseAllDest? {
      var id := if step.CloseAllDest? then s.shutdown.half.value else step.id;
      SlotsFollow(l, s, id, s1.handlers[id], s1.slots);
      RegistryFollows(s, id, s1.handlers[id], s1.registry);
    }
  }

  /** The handler a step changes, if any. */
  function Touched(s: State, step: Step): Option<Id> {
    match step
    case Arrive(id, _, _) => Some(id)
    case BeginCloseAll => None
    case EndCloseAll => None
    case WaitDone => None
    case CloseAllDest => if s.shutdown.Closing? then s.shutdown.half else None
    case _ => Some(step.id)
  }

  lemma OthersUntouched(l: Limits, s: State, step: Step, id: Id)
    requires Enabled(s, step) && Touched(s, step) != Some(id)
    ensures id in Apply(l, s, step).handlers <==> id in s.handlers
    ensures id in s.handlers ==> Apply(l, s, step).handlers[id] == s.handlers[id]
  {
  }

  lemma StepKeepsHandlers(l: Limits, s: State, step: Step, id: Id)
    requires Enabled(s, step) && id in Apply(l, s, step).handlers
    requires id in s.handlers ==> HandlerOk(s.handlers[id])
    ensures HandlerOk(Apply(l, s, step).handlers[id])
  {
    if Touched(s, step) != Some(id) {
      OthersUntouched(l, s, step, id);
    } else if step.Move? {
      MovedOk(s.handlers[id], step.act, Full(l, s.slots, s.handlers[id].key), s.registry.closing);
    }
  }

  lemma MoveKeepsShutdown(l: Limits, s: State, id: Id, act: Action)
    requires Enabled(s, Move(id, act)) && HandlerOk(s.handlers[id]) && ShutdownOk(s)
    ensures ShutdownOk(Apply(l, s, Move(id, act)))
  {
    MovedOk(s.handlers[id], act, Full(l, s.slots, s.handlers[id].key), s.registry.closing);
  }

  /** CloseAll's snapshot holds every tracked pair that is not closed already. */
  lemma OtherStepKeepsShutdown(l: Limits, s: State, step: Step)
    requires !step.Move? && !step.BeginCloseAll? && Enabled(s, step) && ShutdownOk(s)
    requires step.WaitDone? ==> RegistryOk(s)
    ensures ShutdownOk(Apply(l, s, step))
  {
  }

  lemma StepKeepsInv(l: Limits, s: State, step: Step)
    requires Inv(l, s) && Enabled(s, step)
    ensures Inv(l, Apply(l, s, step))
  {
    if step.Move? {
      MoveKeepsCounts(l, s, step.id, step.act);
      MoveKeepsShutdown(l, s, step.id, step.act);
    } else {
      OtherStepKeepsCounts(l, s, step);
      if !step.BeginCloseAll? {
        OtherStepKeepsShutdown(l, s, step);
      }
    }
    forall id | id in Apply(l, s, step).handlers ensures HandlerOk(Apply(l, s, step).handlers[id]) {
      StepKeepsHandlers(l, s, step, id);
    }
  }

  lemma {:induction false} InvAlways(l: Limits, s: State, steps: seq<Step>)
    requires Inv(l, s) && Runs(l, s, steps)
    ensures Inv(l, Exec(l, s, steps))
    decreases steps
  {
    if steps != [] {
      StepKeepsInv(l, s, steps[0]);
      InvAlways(l, Apply(l, s, steps[0]), steps[1..]);
    }
  }

  lemma InvFromBoot(l: Limits, steps: seq<Step>)
    requires Runs(l, BOOT, steps)
    ensures Inv(l, Exec(l, BOOT, steps))
  {
    assert Holders(BOOT.handlers) == {};
    assert forall k :: HoldersOf(BOOT.handlers, k) == {};
    InvAlways(l, BOOT, steps);
  }

  // ---------------------------------------------------------------- what holds in every run

  lemma SubsetSize<T>(a: set<T>, b: set<T>)
    requires a <= b
    ensures |a| <= |b|
  {
    assert b == a + (b - a);
  }

  ghost function ActiveOf(s: State, key: Key): set<Id> {
    set id | id in s.registry.active && id in s.handlers && Named(s.handlers[id].key) == key
  }

  /** Active tunnels never outnumber the slots taken, nor those the limits, in total and per client key. */
  lemma TunnelsNestInLimits(l: Limits, steps: seq<Step>, key: Key)
    requires Runs(l, BOOT, steps)
    ensures var s := Exec(l, BOOT, steps);
            && |s.registry.active| <= s.slots.total <= (if l.maxTotal > 0 then l.maxTotal else 0)
            && |ActiveOf(s, key)| <= Held(s.slots, key) <= (if l.maxPerKey > 0 then l.maxPerKey else 0)
  {
    InvFromBoot(l, steps);
    var s := Exec(l, BOOT, steps);
    SubsetSize(s.registry.active, Holders(s.handlers));
    SubsetSize(ActiveOf(s, key), HoldersOf(s.handlers, key));
  }

  /** A finished handler leaks nothing: its slot was given back exactly once if it got one, and every
      connection it opened or took over is closed. */
  lemma FinishedHandlersLeakNothing(l: Limits, steps: seq<Step>, id: Id)
    requires Runs(l, BOOT, steps)
    requires id in Exec(l, BOOT, steps).handlers && Exec(l, BOOT, steps).handlers[id].phase.Finished?
    ensures var h := Exec(l, BOOT, steps).handlers[id];
            && h.givenBack == (if h.admitted then 1 else 0)
            && (h.dialed ==> h.admitted && h.destClosed)
            && (h.hijacked || h.tracked ==> h.clientClosed && h.destClosed)
  {
    InvFromBoot(l, steps);
  }

  /** The wait group's counter is the number of active pairs, and these are exactly the handlers that
      tracked and have not untracked. */
  lemma WaitCounterExact(l: Limits, steps: seq<Step>)
    requires Runs(l, BOOT, steps)
    ensures var s := Exec(l, BOOT, steps);
            && s.registry.waiting == |s.registry.active|
            && forall id :: id in s.registry.active <==>
                 id in s.handlers && s.handlers[id].tracked && !Over(s.handlers[id].phase)
  {
    InvFromBoot(l, steps);
  }

  // ---------------------------------------------------------------- what a handler does, from first to last

  /** The actions of one handler in a run, without what the relay and the peers do in between. */
  function ActionsOf(steps: seq<Step>, id: Id): seq<Action> {
    if steps == [] then []
    else (if steps[0].Move? && steps[0].id == id && IsOwnAction(steps[0].act) then [steps[0].act] else [])
         + ActionsOf(steps[1..], id)
  }

  predicate IsOwnAction(act: Action) {
    !act.RelayCloses? && !act.RelayEnds? && !act.DataComes? && !act.ClientTakes?
  }

  /** Up to the point where the handler is ready to be tracked. An HTTP/1 connection is hijacked first. */
  function Opening(proto: Proto): seq<Action> {
    if proto == Http1 then [Action.Acquire, Dial, Hijack(true)] else [Action.Acquire, Dial]
  }

  /** What a handler that has given up or ended, and still holds its slot, has done. */
  function Ending(h: Handler): seq<Action> {
    if !h.dialed then [Action.Acquire, FailBeforeDial]
    else if h.tracked then Opening(h.proto) + [Track, CloseClientConn, CloseDestConn, Untrack]
    else if h.proto == Http1 && !h.hijacked then [Action.Acquire, Dial, Hijack(false), DropDestConn]
    else if h.proto == Http1 then Opening(h.proto) + [Track, DropDestConn, DropClientConn]
    else Opening(h.proto) + [Track, DropDestConn]
  }

  /** What a handler has done, as the order of the calls in handleTunneling and the two relay functions has it. */
  function PathTo(h: Handler): seq<Action> {
    match h.phase
    case Arrived => []
    case Slotted => [Action.Acquire]
    case Dialed => [Action.Acquire, Dial]
    case Hijacked => Opening(Http1)
    case DropDest =>
      if h.proto == Http1 && !h.hijacked then [Action.Acquire, Dial, Hijack(false)] else Opening(h.proto) + [Track]
    case DropClient => Opening(Http1) + [Track, DropDestConn]
    case Relaying => Opening(h.proto) + [Track]
    case CloseDest => Opening(h.proto) + [Track, CloseClientConn]
    case Untracking => Opening(h.proto) + [Track, CloseClientConn, CloseDestConn]
    case Releasing => Ending(h)
    case Finished => if h.admitted then Ending(h) + [ReleaseSlot] else [Action.Acquire]
  }

  /** A handler whose Track was refused ran into a shutdown. */
  predicate DroppedBecauseClosing(h: Handler, closing: bool) {
    Track in PathTo(h) && !h.tracked ==> closing
  }

  predicate PathOk(h: Handler) {
    && (h.tracked ==> Registered(h.phase) || Over(h.phase))
    && (h.phase.Hijacked? || h.phase.DropClient? ==> h.proto == Http1 && h.hijacked)
    && (h.hijacked ==> h.proto == Http1)
    && (Registered(h.phase) && h.proto == Http1 ==> h.hijacked)
    && (h.phase.Arrived? || h.phase.Slotted? || h.phase.Dialed? ==> !h.hijacked)
  }

  lemma ActionExtendsPath(h: Handler, act: Action, full: bool, closing: bool)
    requires HandlerOk(h) && PathOk(h) && Fits(h, act) && DroppedBecauseClosing(h, closing)
    ensures var m := Moved(h, act, full, closing);
            && PathOk(m) && DroppedBecauseClosing(m, closing)
            && PathTo(m) == PathTo(h) + (if IsOwnAction(act) then [act] else [])
  {
  }

  ghost predicate PathsOk(s: State, done: seq<Step>) {
    forall id :: PathOf(s, done, id) && FlagsOf(s, done, id)
  }

  /** Data came for the client of a handler and was not taken since. */
  function Owing(steps: seq<Step>, id: Id): bool {
    if steps == [] then false
    else
      var last := steps[|steps| - 1];
      if last == Move(id, DataComes) then true
      else if last == Move(id, ClientTakes) || last == Move(id, RelayEnds) then false
      else Owing(steps[..|steps| - 1], id)
  }

  /** What the run did with one handler, against the handler's own state. */
  predicate PathOf(s: State, done: seq<Step>, id: Id) {
    if id !in s.handlers then ActionsOf(done, id) == []
    else
      var h := s.handlers[id];
      && PathOk(h) && DroppedBecauseClosing(h, s.registry.closing)
      && ActionsOf(done, id) == PathTo(h)
  }

  /** What its relay and its client did, against its flags. */
  predicate FlagsOf(s: State, done: seq<Step>, id: Id) {
    && (id in s.handlers && s.handlers[id].relayOver <==> Move(id, RelayEnds) in done)
    && (id in s.handlers && s.handlers[id].owes <==> Owing(done, id))
  }

  lemma {:induction false} ActionsOfAppend(steps: seq<Step>, step: Step, id: Id)
    ensures ActionsOf(steps + [step], id) ==
            ActionsOf(steps, id) + (if step.Move? && step.id == id && IsOwnAction(step.act) then [step.act] else [])
  {
    if steps != [] {
      assert (steps + [step])[1..] == steps[1..] + [step];
      ActionsOfAppend(steps[1..], step, id);
    }
  }

  lemma StepExtendsPath(l: Limits, s: State, done: seq<Step>, step: Step, id: Id)
    requires Enabled(s, step) && PathOf(s, done, id) && (id in s.handlers ==> HandlerOk(s.handlers[id]))
    ensures PathOf(Apply(l, s, step), done + [step], id)
  {
    ActionsOfAppend(done, step, id);
    if Touched(s, step) != Some(id) {
      OthersUntouched(l, s, step, id);
    } else if step.Move? {
      var h := s.handlers[id];
      ActionExtendsPath(h, step.act, Full(l, s.slots, h.key), s.registry.closing);
    }
  }

  lemma StepKeepsFlags(l: Limits, s: State, done: seq<Step>, step: Step, id: Id)
    requires Enabled(s, step) && FlagsOf(s, done, id)
    ensures FlagsOf(Apply(l, s, step), done + [step], id)
  {
    assert (done + [step])[..|done|] == done;
    assert Move(id, RelayEnds) in done + [step] <==> Move(id, RelayEnds) in done || step == Move(id, RelayEnds);
    if Touched(s, step) != Some(id) {
      OthersUntouched(l, s, step, id);
    }
  }

  lemma {:induction false} PathsAlways(l: Limits, s: State, done: seq<Step>, rest: seq<Step>)
    requires Inv(l, s) && PathsOk(s, done) && Runs(l, s, rest)
    ensures PathsOk(Exec(l, s, rest), done + rest)
    decreases rest
  {
    if rest == [] {
      assert done + rest == done;
    } else {
      var s1, done1 := Apply(l, s, rest[0]), done + [rest[0]];
      forall id ensures PathOf(s1, done1, id) && FlagsOf(s1, done1, id) {
        StepExtendsPath(l, s, done, rest[0], id);
        StepKeepsFlags(l, s, done, rest[0], id);
      }
      StepKeepsInv(l, s, rest[0]);
      PathsAlways(l, Apply(l, s, rest[0]), done + [rest[0]], rest[1..]);
      assert done + [rest[0]] + rest[1..] == done + rest;
    }
  }

  /** In every run, each handler has taken exactly the actions on its way, in the order of the source: it hijacks an
      HTTP/1 connection and then tracks the tunnel, gives up before that only when the dial or the hijack failed or
      Track was refused by a shutdown, and leaves its relay only when that is over or its destination was closed. */
  lemma HandlerFollowsItsPath(l: Limits, steps: seq<Step>, id: Id)
    requires Runs(l, BOOT, steps) && id in Exec(l, BOOT, steps).handlers
    ensures var s := Exec(l, BOOT, steps);
            var h := s.handlers[id];
            && ActionsOf(steps, id) == PathTo(h)
            && (h.hijacked && !h.tracked && (h.phase.DropDest? || h.phase.DropClient? || Over(h.phase)) ==>
                  s.registry.closing)
            && (h.dialed && !h.tracked && (h.phase.DropDest? || Over(h.phase)) ==>
                  s.registry.closing || Hijack(false) in ActionsOf(steps, id))
            && (h.relayOver <==> Move(id, RelayEnds) in steps)
            && h.owes == Owing(steps, id)
            && (h.phase.CloseDest? && !h.relayOver ==> h.destClosed)
  {
    PathsFromBoot(l, steps, id);
    InvFromBoot(l, steps);
  }

  lemma PathsFromBoot(l: Limits, steps: seq<Step>, id: Id)
    requires Runs(l, BOOT, steps)
    ensures PathOf(Exec(l, BOOT, steps), steps, id) && FlagsOf(Exec(l, BOOT, steps), steps, id)
  {
    InvFromBoot(l, []);
    PathsAlways(l, BOOT, [], steps);
    assert [] + steps == steps;
  }

  predicate IsTunnel(s: State, id: Id) {
    && id in s.handlers && s.handlers[id].phase.Relaying? && s.handlers[id].tracked && id in s.registry.active
    && !s.handlers[id].clientClosed && !s.handlers[id].destClosed
  }

  /** The actions that take a new handler to its relay. */
  function Moves(id: Id, acts: seq<Action>): seq<Step> {
    if acts == [] then [] else [Move(id, acts[0])] + Moves(id, acts[1..])
  }

  lemma MoveInFront(l: Limits, s: State, id: Id, act: Action, acts: seq<Action>)
    requires Enabled(s, Move(id, act)) && Runs(l, Apply(l, s, Move(id, act)), Moves(id, acts))
    ensures Runs(l, s, Moves(id, [act] + acts))
    ensures Exec(l, s, Moves(id, [act] + acts)) == Exec(l, Apply(l, s, Move(id, act)), Moves(id, acts))
  {
    assert ([act] + acts)[1..] == acts;
    StepInFront(l, s, Move(id, act), Moves(id, acts));
  }

  lemma TrackOpens(l: Limits, s: State, id: Id)
    requires !s.registry.closing && id in s.handlers && Fits(s.handlers[id], Track)
    requires !s.handlers[id].clientClosed && !s.handlers[id].destClosed
    ensures Runs(l, s, Moves(id, [Track])) && IsTunnel(Exec(l, s, Moves(id, [Track])), id)
  {
    MoveInFront(l, s, id, Track, []);
    assert [Track] + [] == [Track];
  }

  /** From a dialed handler, over the hijack if there is one. */
  lemma DialedOpens(l: Limits, s: State, id: Id, acts: seq<Action>)
    requires !s.registry.closing && id in s.handlers && s.handlers[id].phase.Dialed?
    requires !s.handlers[id].clientClosed && !s.handlers[id].destClosed
    requires acts == if s.handlers[id].proto == Http1 then [Hijack(true)] + [Track] else [Track]
    ensures Runs(l, s, Moves(id, acts)) && IsTunnel(Exec(l, s, Moves(id, acts)), id)
  {
    if s.handlers[id].proto == Http1 {
      TrackOpens(l, Apply(l, s, Move(id, Hijack(true))), id);
      MoveInFront(l, s, id, Hijack(true), [Track]);
    } else {
      TrackOpens(l, s, id);
    }
  }

  /** While the proxy serves and has a free slot, a new request of either protocol can be tunneled. */
  lemma TunnelCanOpen(l: Limits, s: State, id: Id, key: Key, proto: Proto)
    requires !s.registry.closing && id !in s.handlers && !Full(l, s.slots, key)
    ensures var steps := [Arrive(id, key, proto)] + Moves(id, Opening(proto) + [Track]);
            Runs(l, s, steps) && IsTunnel(Exec(l, s, steps), id)
  {
    var acts := if proto == Http1 then [Hijack(true)] + [Track] else [Track];
    var s1 := Apply(l, s, Arrive(id, key, proto));
    var s2 := Apply(l, s1, Move(id, Action.Acquire));
    var s3 := Apply(l, s2, Move(id, Dial));
    DialedOpens(l, s3, id, acts);
    MoveInFront(l, s2, id, Dial, acts);
    MoveInFront(l, s1, id, Action.Acquire, [Dial] + acts);
    assert [Action.Acquire] + ([Dial] + acts) == Opening(proto) + [Track];
    StepInFront(l, s, Arrive(id, key, proto), Moves(id, Opening(proto) + [Track]));
  }

  lemma UntrackingFinishes(l: Limits, s: State, id: Id)
    requires id in s.handlers && s.handlers[id].phase.Untracking?
    ensures var acts := [Untrack] + [ReleaseSlot];
            && Runs(l, s, Moves(id, acts)) && id in Exec(l, s, Moves(id, acts)).handlers
            && Exec(l, s, Moves(id, acts)).handlers[id].phase.Finished?
  {
    var s1 := Apply(l, s, Move(id, Untrack));
    MoveInFront(l, s1, id, ReleaseSlot, []);
    assert [ReleaseSlot] + [] == [ReleaseSlot];
    MoveInFront(l, s, id, Untrack, [ReleaseSlot]);
  }

  /** The deferred calls of a tunnel whose relay can return. */
  lemma DeferredCallsFinish(l: Limits, s: State, id: Id)
    requires id in s.handlers && s.handlers[id].phase.Relaying? && RelayReturns(s.handlers[id])
    ensures var acts := [CloseClientConn] + ([CloseDestConn] + ([Untrack] + [ReleaseSlot]));
            && Runs(l, s, Moves(id, acts)) && id in Exec(l, s, Moves(id, acts)).handlers
            && Exec(l, s, Moves(id, acts)).handlers[id].phase.Finished?
  {
    var s1 := Apply(l, s, Move(id, CloseClientConn));
    UntrackingFinishes(l, Apply(l, s1, Move(id, CloseDestConn)), id);
    MoveInFront(l, s1, id, CloseDestConn, [Untrack] + [ReleaseSlot]);
    MoveInFront(l, s, id, CloseClientConn, [CloseDestConn] + ([Untrack] + [ReleaseSlot]));
  }

  /** At any time an idle timeout, or an error, can end a tunnel that owes its client nothing: the relay closes both
      connections, and the deferred calls take the handler to its end. */
  lemma IdleTunnelFinishes(l: Limits, s: State, id: Id)
    requires id in s.handlers && s.handlers[id].phase.Relaying? && !s.handlers[id].owes
    ensures var acts := [RelayCloses(true, true)]
                        + ([CloseClientConn] + ([CloseDestConn] + ([Untrack] + [ReleaseSlot])));
            && Runs(l, s, Moves(id, acts)) && id in Exec(l, s, Moves(id, acts)).handlers
            && Exec(l, s, Moves(id, acts)).handlers[id].phase.Finished?
  {
    var acts := [CloseClientConn] + ([CloseDestConn] + ([Untrack] + [ReleaseSlot]));
    DeferredCallsFinish(l, Apply(l, s, Move(id, RelayCloses(true, true))), id);
    MoveInFront(l, s, id, RelayCloses(true, true), acts);
  }

  predicate CloseAllReturned(s: State) {
    s.shutdown.ClosedAll? || s.shutdown.Drained?
  }

  ghost predicate OnlyShrinks(s: State, t: State) {
    && (CloseAllReturned(s) ==> CloseAllReturned(t))
    && (s.shutdown.Drained? ==> t.shutdown.Drained?)
    && t.registry.active <= s.registry.active
    && (forall id :: id in t.handlers && t.handlers[id].tracked ==> id in s.handlers && s.handlers[id].tracked)
  }

  lemma NotTrackedWhileClosing(l: Limits, s: State, step: Step, id: Id)
    requires Enabled(s, step) && s.registry.closing && (id in s.handlers ==> HandlerOk(s.handlers[id]))
    requires id in Apply(l, s, step).handlers && Apply(l, s, step).handlers[id].tracked
    ensures id in s.handlers && s.handlers[id].tracked
  {
    if Touched(s, step) != Some(id) {
      OthersUntouched(l, s, step, id);
    }
  }

  lemma StepShrinks(l: Limits, s: State, step: Step)
    requires Inv(l, s) && CloseAllReturned(s) && Enabled(s, step)
    ensures OnlyShrinks(s, Apply(l, s, step))
  {
    var t := Apply(l, s, step);
    forall id | id in t.handlers && t.handlers[id].tracked ensures id in s.handlers && s.handlers[id].tracked {
      NotTrackedWhileClosing(l, s, step, id);
    }
  }

  lemma {:induction false} NothingTrackedLater(l: Limits, s: State, more: seq<Step>)
    requires Inv(l, s) && CloseAllReturned(s) && Runs(l, s, more)
    ensures OnlyShrinks(s, Exec(l, s, more)) && Inv(l, Exec(l, s, more))
    decreases more
  {
    if more != [] {
      StepShrinks(l, s, more[0]);
      StepKeepsInv(l, s, more[0]);
      NothingTrackedLater(l, Apply(l, s, more[0]), more[1..]);
    }
  }

  /** Once CloseAll has returned, and ever after: every pair ever tracked is closed on both sides, and no
      Track succeeds any more. */
  lemma ShutdownClosesEverything(l: Limits, steps: seq<Step>, more: seq<Step>)
    requires Runs(l, BOOT, steps) && CloseAllReturned(Exec(l, BOOT, steps))
    requires Runs(l, Exec(l, BOOT, steps), more)
    ensures var s := Exec(l, BOOT, steps);
            var t := Exec(l, s, more);
            && (forall id :: id in t.handlers && t.handlers[id].tracked ==>
                  t.handlers[id].clientClosed && t.handlers[id].destClosed)
            && (forall id :: id in t.handlers && t.handlers[id].tracked ==> id in s.handlers && s.handlers[id].tracked)
  {
    InvFromBoot(l, steps);
    NothingTrackedLater(l, Exec(l, BOOT, steps), more);
  }

  /** Wait returning without error means, for good, that no tunnel is active and every tracked handler has
      closed both sides and untracked. */
  lemma WaitMeansDrained(l: Limits, steps: seq<Step>, more: seq<Step>)
    requires Runs(l, BOOT, steps) && Exec(l, BOOT, steps).shutdown.Drained?
    requires Runs(l, Exec(l, BOOT, steps), more)
    ensures var t := Exec(l, Exec(l, BOOT, steps), more);
            && t.registry.active == {} && t.registry.waiting == 0
            && forall id :: id in t.handlers && t.handlers[id].tracked ==>
                 Over(t.handlers[id].phase) && t.handlers[id].clientClosed && t.handlers[id].destClosed
  {
    InvFromBoot(l, steps);
    NothingTrackedLater(l, Exec(l, BOOT, steps), more);
    var t := Exec(l, Exec(l, BOOT, steps), more);
    forall id | id in t.handlers && t.handlers[id].tracked ensures Over(t.handlers[id].phase) {
      assert id !in Where(t.handlers, InRegistry());
    }
  }

  // ---------------------------------------------------------------- every shutdown comes to its end

  /** The steps the proxy takes by itself: a handler's deferred calls, and the return of Wait. */
  predicate IsDeferred(act: Action) {
    act.CloseClientConn? || act.CloseDestConn? || act.Untrack?
  }

  predicate OwnStep(step: Step) {
    step.WaitDone? || (step.Move? && IsDeferred(step.act))
  }

  predicate OwnSteps(steps: seq<Step>) {
    forall i :: 0 <= i < |steps| ==> OwnStep(steps[i])
  }

  ghost predicate NoneOwes(s: State) {
    forall id :: id in s.handlers ==> !s.handlers[id].owes
  }

  function StepsToUntrack(p: Phase): nat {
    match p case Relaying => 3 case CloseDest => 2 case Untracking => 1 case _ => 0
  }

  ghost function InRelay(): Handler -> bool {
    (h: Handler) => h.phase.Relaying?
  }

  ghost function BeforeDestClose(): Handler -> bool {
    (h: Handler) => h.phase.Relaying? || h.phase.CloseDest?
  }

  /** How many own steps the handlers, and the whole shutdown, still have before them. */
  ghost function HandlerSteps(handlers: map<Id, Handler>): nat {
    |Where(handlers, InRelay())| + |Where(handlers, BeforeDestClose())| + |Where(handlers, InRegistry())|
  }

  ghost function StepsLeft(s: State): nat {
    HandlerSteps(s.handlers) + if s.shutdown.Drained? then 0 else 1
  }

  function CountOwn(steps: seq<Step>): nat {
    if steps == [] then 0 else (if OwnStep(steps[0]) then 1 else 0) + CountOwn(steps[1..])
  }

  lemma PutSteps(handlers: map<Id, Handler>, id: Id, h: Handler)
    ensures HandlerSteps(handlers[id := h]) ==
            HandlerSteps(handlers) + StepsToUntrack(h.phase)
            - (if id in handlers then StepsToUntrack(handlers[id].phase) else 0)
  {
    PutCount(handlers, id, h, InRelay());
    PutCount(handlers, id, h, BeforeDestClose());
    PutCount(handlers, id, h, InRegistry());
  }

  lemma PhaseCounts(h: Handler, act: Action, full: bool)
    requires Fits(h, act)
    ensures StepsToUntrack(NextPhase(h, act, full, true)) + (if IsDeferred(act) then 1 else 0)
            <= StepsToUntrack(h.phase)
  {
  }

  lemma StepCounts(l: Limits, s: State, step: Step)
    requires s.registry.closing && CloseAllReturned(s) && Enabled(s, step)
    ensures StepsLeft(Apply(l, s, step)) + (if OwnStep(step) then 1 else 0) <= StepsLeft(s)
  {
    if step.Move? {
      var h := s.handlers[step.id];
      PhaseCounts(h, step.act, Full(l, s.slots, h.key));
      PutSteps(s.handlers, step.id, Moved(h, step.act, Full(l, s.slots, h.key), true));
    } else if step.Arrive? {
      PutSteps(s.handlers, step.id, Apply(l, s, step).handlers[step.id]);
    }
  }

  lemma {:induction false} StepsCount(l: Limits, s: State, more: seq<Step>)
    requires Inv(l, s) && CloseAllReturned(s) && Runs(l, s, more)
    ensures StepsLeft(Exec(l, s, more)) + CountOwn(more) <= StepsLeft(s)
    decreases more
  {
    if more != [] {
      StepCounts(l, s, more[0]);
      StepKeepsInv(l, s, more[0]);
      StepShrinks(l, s, more[0]);
      StepsCount(l, Apply(l, s, more[0]), more[1..]);
    }
  }

  /** What a tracked handler does next, by itself. */
  function NextOf(h: Handler): Action {
    match h.phase
    case Relaying => CloseClientConn
    case CloseDest => CloseDestConn
    case _ => Untrack
  }

  /** After CloseAll both sides of every tracked handler are closed, so that only data for an HTTP/2 client can hold
      its relay. */
  lemma HandlerCanMove(l: Limits, s: State, id: Id)
    requires Inv(l, s) && CloseAllReturned(s) && id in s.registry.active && !s.handlers[id].owes
    ensures Enabled(s, Move(id, NextOf(s.handlers[id])))
  {
    assert id in Where(s.handlers, InRegistry());
  }

  /** Wherever a shutdown stands, an own step is possible, unless a relay owes its client data. */
  lemma OwnStepPossible(l: Limits, s: State) returns (step: Step)
    requires Inv(l, s) && CloseAllReturned(s) && !s.shutdown.Drained? && NoneOwes(s)
    ensures OwnStep(step) && Enabled(s, step)
  {
    step := WaitDone;
    if s.registry.active != {} {
      var id :| id in s.registry.active;
      HandlerCanMove(l, s, id);
      step := Move(id, NextOf(s.handlers[id]));
    }
  }

  /** After CloseAll the destinations are closed, so nothing new comes to be owed. */
  lemma NothingNewOwed(l: Limits, s: State, step: Step)
    requires Inv(l, s) && CloseAllReturned(s) && NoneOwes(s) && Enabled(s, step)
    ensures NoneOwes(Apply(l, s, step))
  {
    var t := Apply(l, s, step);
    forall id | id in t.handlers ensures !t.handlers[id].owes {
      if Touched(s, step) != Some(id) {
        OthersUntouched(l, s, step, id);
      }
    }
  }

  lemma {:induction false} NothingOwedLater(l: Limits, s: State, more: seq<Step>)
    requires Inv(l, s) && CloseAllReturned(s) && NoneOwes(s) && Runs(l, s, more)
    ensures NoneOwes(Exec(l, s, more))
    decreases more
  {
    if more != [] {
      NothingNewOwed(l, s, more[0]);
      StepKeepsInv(l, s, more[0]);
      StepShrinks(l, s, more[0]);
      NothingOwedLater(l, Apply(l, s, more[0]), more[1..]);
    }
  }

  /** Every run after CloseAll, whatever the peers and new requests do in it, takes at most three own steps for each
      tunnel that was active and one for Wait; and wherever it stops short of Wait's return, another own step is
      possible unless a relay owes its client data since before CloseAll returned. */
  lemma ShutdownTerminates(l: Limits, steps: seq<Step>, more: seq<Step>)
    requires Runs(l, BOOT, steps) && CloseAllReturned(Exec(l, BOOT, steps))
    requires Runs(l, Exec(l, BOOT, steps), more)
    ensures var s := Exec(l, BOOT, steps);
            var t := Exec(l, s, more);
            && CountOwn(more) <= 3 * |s.registry.active| + 1
            && (t.shutdown.Drained? || !NoneOwes(t) || OwnStepEnabled(t))
            && (NoneOwes(s) ==> NoneOwes(t))
  {
    InvFromBoot(l, steps);
    var s := Exec(l, BOOT, steps);
    var t := Exec(l, s, more);
    StepsCount(l, s, more);
    SubsetSize(Where(s.handlers, InRelay()), Where(s.handlers, InRegistry()));
    SubsetSize(Where(s.handlers, BeforeDestClose()), Where(s.handlers, InRegistry()));
    NothingTrackedLater(l, s, more);
    if NoneOwes(s) {
      NothingOwedLater(l, s, more);
    }
    if !t.shutdown.Drained? && NoneOwes(t) {
      var step := OwnStepPossible(l, t);
    }
  }

  // ---------------------------------------------------------------- shutdown without the peers

  ghost predicate OwnStepEnabled(s: State) {
    exists step :: OwnStep(step) && Enabled(s, step)
  }

  lemma OwnStepKeepsDebt(l: Limits, s: State, step: Step, id: Id)
    requires id in s.handlers && HandlerOk(s.handlers[id]) && s.handlers[id].owes
    requires OwnStep(step) && Enabled(s, step)
    ensures id in Apply(l, s, step).handlers && Apply(l, s, step).handlers[id].owes
  {
    assert Touched(s, step) != Some(id);
    OthersUntouched(l, s, step, id);
  }

  /** A handler whose relay owes its client stays in the registry, whatever the proxy does by itself. */
  lemma {:induction false} DebtHolds(l: Limits, s: State, more: seq<Step>, id: Id)
    requires Inv(l, s) && id in s.handlers && s.handlers[id].owes
    requires Runs(l, s, more) && OwnSteps(more)
    ensures !Exec(l, s, more).shutdown.Drained?
    decreases more
  {
    assert id in Where(s.handlers, InRegistry());
    if more != [] {
      OwnStepKeepsDebt(l, s, more[0], id);
      StepKeepsInv(l, s, more[0]);
      DebtHolds(l, Apply(l, s, more[0]), more[1..], id);
    }
  }

  lemma OwnStepLeads(l: Limits, s: State, step: Step)
    requires Inv(l, s) && CloseAllReturned(s) && OwnStep(step) && Enabled(s, step)
    ensures var t := Apply(l, s, step);
            Inv(l, t) && CloseAllReturned(t) && StepsLeft(t) < StepsLeft(s)
  {
    StepCounts(l, s, step);
    StepKeepsInv(l, s, step);
    StepShrinks(l, s, step);
  }

  lemma OwnStepInFront(l: Limits, s: State, step: Step, rest: seq<Step>)
    requires OwnStep(step) && Enabled(s, step) && Runs(l, Apply(l, s, step), rest) && OwnSteps(rest)
    ensures Runs(l, s, [step] + rest) && Exec(l, s, [step] + rest) == Exec(l, Apply(l, s, step), rest)
    ensures OwnSteps([step] + rest)
  {
    StepInFront(l, s, step, rest);
  }

  /** Going on without the peers as long as possible. */
  lemma {:induction false} RunOut(l: Limits, s: State) returns (more: seq<Step>, end: State)
    requires Inv(l, s) && CloseAllReturned(s)
    ensures Runs(l, s, more) && OwnSteps(more) && Exec(l, s, more) == end && !OwnStepEnabled(end)
    decreases StepsLeft(s)
  {
    more, end := [], s;
    if OwnStepEnabled(s) {
      var step :| OwnStep(step) && Enabled(s, step);
      OwnStepLeads(l, s, step);
      var rest;
      rest, end := RunOut(l, Apply(l, s, step));
      OwnStepInFront(l, s, step, rest);
      more := [step] + rest;
    }
  }

  /** However the proxy goes on without the peers, it does not stop before Wait has returned. */
  ghost predicate DrainsByItself(l: Limits, s: State) {
    forall more :: Runs(l, s, more) && OwnSteps(more) ==>
      Exec(l, s, more).shutdown.Drained? || OwnStepEnabled(Exec(l, s, more))
  }

  /** Some run without the peers brings Wait to return. */
  ghost predicate CanDrainByItself(l: Limits, s: State) {
    exists more :: Runs(l, s, more) && OwnSteps(more) && Exec(l, s, more).shutdown.Drained?
  }

  lemma DrainsIfNoneOwes(l: Limits, s: State, more: seq<Step>)
    requires Inv(l, s) && CloseAllReturned(s) && NoneOwes(s) && Runs(l, s, more)
    ensures Exec(l, s, more).shutdown.Drained? || OwnStepEnabled(Exec(l, s, more))
  {
    var t := Exec(l, s, more);
    NothingOwedLater(l, s, more);
    NothingTrackedLater(l, s, more);
    if !t.shutdown.Drained? {
      var step := OwnStepPossible(l, t);
    }
  }

  /** From every reachable state after CloseAll: the handlers' own deferred calls bring Wait to return in every run,
      with no help of the peers, if and only if no relay owes an HTTP/2 client data; and otherwise in none. */
  lemma ShutdownNeverStuck(l: Limits, steps: seq<Step>)
    requires Runs(l, BOOT, steps) && CloseAllReturned(Exec(l, BOOT, steps))
    ensures var s := Exec(l, BOOT, steps);
            && (DrainsByItself(l, s) <==> NoneOwes(s))
            && (CanDrainByItself(l, s) <==> NoneOwes(s))
  {
    InvFromBoot(l, steps);
    var s := Exec(l, BOOT, steps);
    var longest, _ := RunOut(l, s);
    if NoneOwes(s) {
      forall more | Runs(l, s, more) && OwnSteps(more)
        ensures Exec(l, s, more).shutdown.Drained? || OwnStepEnabled(Exec(l, s, more))
      {
        DrainsIfNoneOwes(l, s, more);
      }
    } else {
      var id :| id in s.handlers && s.handlers[id].owes;
      forall more | Runs(l, s, more) && OwnSteps(more) ensures !Exec(l, s, more).shutdown.Drained? {
        DebtHolds(l, s, more, id);
      }
    }
  }

  lemma StepInFront(l: Limits, s: State, step: Step, rest: seq<Step>)
    requires Enabled(s, step) && Runs(l, Apply(l, s, step), rest)
    ensures Runs(l, s, [step] + rest) && Exec(l, s, [step] + rest) == Exec(l, Apply(l, s, step), rest)
  {
    assert ([step] + rest)[1..] == rest;
  }

  ghost function OwesData(): Handler -> bool {
    (h: Handler) => h.owes
  }

  /** A client takes what it is owed, and nothing else changes. */
  lemma ClientTakesData(l: Limits, s: State, id: Id)
    requires Inv(l, s) && CloseAllReturned(s) && id in s.handlers && s.handlers[id].owes
    ensures Enabled(s, Move(id, ClientTakes))
    ensures var t := Apply(l, s, Move(id, ClientTakes));
            && Inv(l, t) && CloseAllReturned(t)
            && |Where(t.handlers, OwesData())| < |Where(s.handlers, OwesData())|
  {
    var step := Move(id, ClientTakes);
    StepKeepsInv(l, s, step);
    StepShrinks(l, s, step);
    PutCount(s.handlers, id, Apply(l, s, step).handlers[id], OwesData());
  }

  /** With the help of the clients that are owed data, and of nobody else, every shutdown comes to its end. */
  lemma {:induction false} ClientsLetWaitReturn(l: Limits, s: State) returns (more: seq<Step>)
    requires Inv(l, s) && CloseAllReturned(s)
    ensures Runs(l, s, more) && Exec(l, s, more).shutdown.Drained?
    ensures forall i :: 0 <= i < |more| ==> OwnStep(more[i]) || (more[i].Move? && more[i].act.ClientTakes?)
    decreases |Where(s.handlers, OwesData())|
  {
    if NoneOwes(s) {
      var end;
      more, end := RunOut(l, s);
      DrainsIfNoneOwes(l, s, more);
    } else {
      var id :| id in s.handlers && s.handlers[id].owes;
      ClientTakesData(l, s, id);
      var rest := ClientsLetWaitReturn(l, Apply(l, s, Move(id, ClientTakes)));
      StepInFront(l, s, Move(id, ClientTakes), rest);
      more := [Move(id, ClientTakes)] + rest;
    }
  }

  /** CloseAll on a state with one tunnel. */
  lemma CloseOne(l: Limits, s: State, id: Id) returns (steps: seq<Step>)
    requires s.shutdown.Serving? && s.registry.active == {id} && id in s.handlers
    ensures Runs(l, s, steps) && Exec(l, s, steps).shutdown.ClosedAll?
    ensures id in Exec(l, s, steps).handlers && Exec(l, s, steps).handlers[id].owes == s.handlers[id].owes
  {
    var s1 := Apply(l, s, BeginCloseAll);
    var s2 := Apply(l, s1, CloseAllClient(id));
    var s3 := Apply(l, s2, CloseAllDest);
    assert s3.shutdown.todo == {};
    steps := [EndCloseAll];
    assert steps[1..] == [];
    StepInFront(l, s2, CloseAllDest, steps);
    steps := [CloseAllDest] + steps;
    StepInFront(l, s1, CloseAllClient(id), steps);
    steps := [CloseAllClient(id)] + steps;
    StepInFront(l, s, BeginCloseAll, steps);
    steps := [BeginCloseAll] + steps;
  }

  /** Data comes for a client that is about to be tracked, and CloseAll runs before the client takes it. */
  lemma CloseWhileOwing(l: Limits, s: State, id: Id) returns (steps: seq<Step>)
    requires s.shutdown.Serving? && !s.registry.closing && s.registry.active == {}
    requires id in s.handlers
    requires s.handlers[id] == NewHandler(s.handlers[id].key, Http2).(phase := Slotted, admitted := true)
    ensures Runs(l, s, steps) && Exec(l, s, steps).shutdown.ClosedAll? && !NoneOwes(Exec(l, s, steps))
  {
    var dial, track, data := Move(id, Dial), Move(id, Track), Move(id, DataComes);
    var s1 := Apply(l, s, dial);
    var s2 := Apply(l, s1, track);
    var s3 := Apply(l, s2, data);
    assert s3.registry.active == {id} && s3.handlers[id].owes;
    steps := CloseOne(l, s3, id);
    StepInFront(l, s2, data, steps);
    steps := [data] + steps;
    StepInFront(l, s1, track, steps);
    steps := [track] + steps;
    StepInFront(l, s, dial, steps);
    steps := [dial] + steps;
  }

  /** Such shutdowns exist. */
  lemma SomeShutdownWaits(l: Limits, key: Key) returns (steps: seq<Step>)
    requires l.maxTotal >= 1 && l.maxPerKey >= 1
    ensures Runs(l, BOOT, steps) && Exec(l, BOOT, steps).shutdown.ClosedAll? && !NoneOwes(Exec(l, BOOT, steps))
  {
    var arrive, acquire := Arrive(0, key, Http2), Move(0, Action.Acquire);
    var s1 := Apply(l, BOOT, arrive);
    var s2 := Apply(l, s1, acquire);
    steps := CloseWhileOwing(l, s2, 0);
    StepInFront(l, s1, acquire, steps);
    steps := [acquire] + steps;
    StepInFront(l, BOOT, arrive, steps);
    steps := [arrive] + steps;
  }

  // ---------------------------------------------------------------- the imperative registry

  class ConnectionPair {
    var clientClosed: bool
    var destClosed: bool

    constructor ()
      ensures !clientClosed && !destClosed
    {
      clientClosed, destClosed := false, false;
    }
  }

  class TunnelRegistry {
    var closing: bool
    var active: set<ConnectionPair>
    var waiting: int

    ghost predicate Valid()
      reads this
    {
      waiting == |active|
    }

    ghost function View(): Registry<ConnectionPair>
      reads this
    {
      Registry(closing, active, waiting)
    }

    constructor ()
      ensures Valid() && View() == Registry(false, {}, 0)
    {
      closing, active, waiting := false, {}, 0;
    }

    method Track() returns (pair: ConnectionPair?)
      requires Valid()
      modifies this
      ensures Valid()
      ensures pair == null <==> old(closing)
      ensures pair == null ==> View() == old(View())
      ensures pair != null ==> fresh(pair) && View() == Tracked(old(View()), pair)
    {
      if closing {
        return null;
      }
      pair := new ConnectionPair();
      active := active + {pair};
      waiting := waiting + 1;
    }

    method Untrack(pair: ConnectionPair)
      requires Valid()
      modifies this
      ensures Valid() && View() == Untracked(old(View()), pair)
    {
      if pair in active {
        active := active - {pair};
        waiting := waiting - 1;
      }
    }

    method CloseAll()
      requires Valid()
      modifies this, active
      ensures Valid() && View() == old(View()).(closing := true)
      ensures forall p :: p in active ==> p.clientClosed && p.destClosed
    {
      closing := true;
      var todo := active;
      while todo != {}
        invariant todo <= active && View() == old(View()).(closing := true)
        invariant forall p :: p in active && p !in todo ==> p.clientClosed && p.destClosed
        decreases |todo|
      {
        var pair :| pair in todo;
        todo := todo - {pair};
        pair.clientClosed := true;
        pair.destClosed := true;
      }
    }
  }
}
