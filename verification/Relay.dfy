/**
 The bidirectional relay of internal/tunnel/tunnel.go (Relay and RelayStream): two copy goroutines, a
 result channel of capacity two, the main goroutine and the idle timer, in every interleaving.

 What the peers send is arbitrary; reads and writes may be partial and may fail at any time. Once a connection is
 cut (interrupted, closed by the idle timeout, or closed from outside by a shutdown) its reads and writes no longer
 wait for a peer: a write fails, and a read ends unless it still finds bytes that were buffered before, such as those
 an upstream proxy sent right behind its response to CONNECT.
 */
module Relay {
  import opened GoBytes
  import Idle = IdleTimer

  datatype Dir = ToDest | ToClient

  /** How a read ended: more may follow, clean end of stream, or an error. */
  datatype End = More | Eof | Broken

  datatype Phase =
    | Reading
    | Touching(chunk: Bytes, end: End)   // activityReader.Read, after at least one byte arrived
    | Writing(chunk: Bytes, end: End)
    | HalfClosing
    | Posting(failed: bool)
    | Posted(failed: bool)

  /** One copyAndHalfClose: everything its source will send, how much was read, how much is buffered beyond that in
      front of the connection (BufferedConn), and what was written. */
  datatype Copy = Copy(input: Bytes, read: nat, ahead: nat, output: Bytes, phase: Phase, halfClosed: bool)

  datatype Main = First | Interrupting(left: nat) | Second | Stopping | Returned

  datatype Result = Result(dir: Dir, failed: bool)

  datatype State = State(
    toDest: Copy,
    toClient: Copy,
    channel: seq<Result>,
    taken: seq<Result>,        // results the main goroutine has received
    main: Main,
    interrupts: nat,           // connections interrupted by the main goroutine
    timeoutCloses: nat,        // connections closed by onTimeout
    outsideCloses: nat,        // connections closed by CloseAll
    idle: Idle.State)
  {
    function Of(d: Dir): Copy { if d.ToDest? then toDest else toClient }

    function With(d: Dir, c: Copy): State { if d.ToDest? then this.(toDest := c) else this.(toClient := c) }

    /** All three cut the client's connection first and the destination's second. */
    predicate ClientCut() { interrupts >= 1 || timeoutCloses >= 1 || outsideCloses >= 1 }

    predicate DestCut() { interrupts >= 2 || timeoutCloses >= 2 || outsideCloses >= 2 }

    /** The connection a direction reads from is cut. */
    predicate SourceCut(d: Dir) { if d.ToDest? then ClientCut() else DestCut() }
  }

  /** RelayStream (`stream`) closes the request body and the destination, so it never cuts the writes to its
      client, and it cannot half-close that side. */
  datatype Setup = Setup(
    idle: Idle.Config,
    destHalfCloses: bool,
    clientHalfCloses: bool,
    stream: bool,
    clientAhead: nat,          // bytes buffered on either side when the relay starts
    destAhead: nat)
  {
    predicate Valid() { idle.timeout > 0 && (stream ==> !clientHalfCloses) }

    predicate CanHalfClose(d: Dir) { if d.ToDest? then destHalfCloses else clientHalfCloses }

    /** The connection a direction writes to is cut. */
    predicate TargetCut(s: State, d: Dir) { if d.ToDest? then s.DestCut() else s.ClientCut() && !stream }
  }

  datatype HalfClose = Done | AlreadyClosed | Refused

  /** What one copy does. */
  datatype Action =
    | Read(n: nat, end: End, ahead: nat)   // leaves `ahead` bytes buffered
    | TouchIdle(lag: nat)
    | Write(n: nat, failed: bool)
    | CloseWrite(outcome: HalfClose)
    | Post

  datatype Step =
    | Do(dir: Dir, act: Action)
    | TakeFirst
    | Interrupt
    | TakeSecond
    | StopIdle
    | Timer(step: Idle.Step)           // time passes, the timer fires, a callback runs
    | TimeoutClose                     // onTimeout closes one of the two connections
    | OutsideClose                     // CloseAll closes one of them

  function Min(a: nat, b: nat): (m: nat)
    ensures m <= a && m <= b && (m == a || m == b)
  {
    if a < b then a else b
  }

  function Begin(g: Setup, fromClient: Bytes, fromDest: Bytes, t: int, lag: nat): State {
    State(Copy(fromClient, 0, Min(g.clientAhead, |fromClient|), [], Reading, false),
          Copy(fromDest, 0, Min(g.destAhead, |fromDest|), [], Reading, false),
          [], [], First, 0, 0, 0, Idle.Begin(g.idle, t, lag))
  }

  // ---------------------------------------------------------------- one copy

  predicate CanMove(g: Setup, c: Copy, act: Action) {
    match act
    case Read(n, end, ahead) =>
      && c.phase.Reading? && c.read + n + ahead <= |c.input| && (end.Eof? ==> c.read + n == |c.input|)
      && (c.ahead > 0 ==> n > 0 && n + ahead == c.ahead && end.More?)
    case TouchIdle(lag) => c.phase.Touching? && lag <= g.idle.maxLag
    case Write(n, _) => c.phase.Writing? && n <= |c.phase.chunk|
    case CloseWrite(_) => c.phase.HalfClosing?
    case Post => c.phase.Posting?
  }

  function AfterEnd(end: End): Phase {
    match end case More => Reading case Eof => HalfClosing case Broken => Posting(true)
  }

  function Moved(g: Setup, d: Dir, c: Copy, act: Action): Copy
    requires CanMove(g, c, act)
  {
    match act
    case Read(n, end, ahead) =>
      c.(read := c.read + n, ahead := ahead,
         phase := if n > 0 then Touching(c.input[c.read..c.read + n], end) else AfterEnd(end))
    case TouchIdle(_) => c.(phase := Writing(c.phase.chunk, c.phase.end))
    case Write(n, failed) =>
      c.(output := c.output + c.phase.chunk[..n],
         phase := if failed || n < |c.phase.chunk| then Posting(true) else AfterEnd(c.phase.end))
    case CloseWrite(outcome) =>
      if !g.CanHalfClose(d) then c.(phase := Posting(false))
      else c.(halfClosed := c.halfClosed || outcome.Done?, phase := Posting(outcome.Refused?))
    case Post => c.(phase := Posted(c.phase.failed))
  }

  /** The bytes read but not yet handed to the writer. */
  function InHand(p: Phase): Bytes {
    if p.Touching? || p.Writing? then p.chunk else []
  }

  predicate CopyOk(c: Copy) {
    && c.read + c.ahead <= |c.input|
    && c.output <= c.input
    && (c.phase.Reading? || c.phase.Touching? || c.phase.Writing? ==> c.output + InHand(c.phase) == c.input[..c.read])
    && ((c.phase.Touching? || c.phase.Writing?) && c.phase.end.Eof? ==> c.read == |c.input|)
    && (c.phase.HalfClosing? ==> c.output == c.input)
    && ((c.phase.Posting? || c.phase.Posted?) && !c.phase.failed ==> c.output == c.input)
    && (c.halfClosed ==> c.output == c.input && (c.phase.Posting? || c.phase.Posted?))
  }

  lemma ReadOk(g: Setup, d: Dir, c: Copy, act: Action)
    requires act.Read? && CopyOk(c) && CanMove(g, c, act)
    ensures CopyOk(Moved(g, d, c, act))
  {
  }

  lemma WriteOk(g: Setup, d: Dir, c: Copy, act: Action)
    requires act.Write? && CopyOk(c) && CanMove(g, c, act)
    ensures CopyOk(Moved(g, d, c, act))
  {
  }

  lemma MovedOk(g: Setup, d: Dir, c: Copy, act: Action)
    requires CopyOk(c) && CanMove(g, c, act)
    ensures CopyOk(Moved(g, d, c, act)) && Moved(g, d, c, act).input == c.input
  {
    match act
    case Read(_, _, _) => ReadOk(g, d, c, act);
    case Write(_, _) => WriteOk(g, d, c, act);
    case _ =>
  }

  // ---------------------------------------------------------------- the whole relay

  /** What an action finds around its copy: room in the channel for a result, and cut connections. */
  predicate Allowed(g: Setup, s: State, d: Dir, act: Action) {
    match act
    case Post => |s.channel| < 2
    case Read(n, end, ahead) => s.SourceCut(d) && s.Of(d).ahead == 0 ==> n == 0 && ahead == 0 && !end.More?
    case Write(_, failed) => g.TargetCut(s, d) ==> failed
    case _ => true
  }

  predicate Enabled(g: Setup, s: State, step: Step) {
    match step
    case Do(d, act) => CanMove(g, s.Of(d), act) && Allowed(g, s, d, act)
    case TakeFirst => s.main.First? && s.channel != []
    case Interrupt => s.main.Interrupting?
    case TakeSecond => s.main.Second? && s.channel != []
    case StopIdle => s.main.Stopping?
    case Timer(t) => (t.Tick? || t.Fire? || t.Expire?) && Idle.Enabled(g.idle, s.idle, t)
    case TimeoutClose => s.timeoutCloses < 2 * |s.idle.decisions|
    case OutsideClose => s.outsideCloses < 2
  }

  function Apply(g: Setup, s: State, step: Step): State
    requires Enabled(g, s, step)
  {
    match step
    case Do(d, act) =>
      s.With(d, Moved(g, d, s.Of(d), act)).(
        channel := if act.Post? then s.channel + [Result(d, s.Of(d).phase.failed)] else s.channel,
        idle := if act.TouchIdle? then Idle.Apply(g.idle, s.idle, Idle.Touch(act.lag)) else s.idle)
    case TakeFirst =>
      s.(channel := s.channel[1..], taken := s.taken + [s.channel[0]],
         main := if s.channel[0].failed then Interrupting(2) else Second)
    case Interrupt =>
      s.(interrupts := s.interrupts + 1, main := if s.main.left <= 1 then Second else Interrupting(s.main.left - 1))
    case TakeSecond => s.(channel := s.channel[1..], taken := s.taken + [s.channel[0]], main := Stopping)
    case StopIdle => s.(idle := Idle.Apply(g.idle, s.idle, Idle.Stop), main := Returned)
    case Timer(t) => s.(idle := Idle.Apply(g.idle, s.idle, t))
    case TimeoutClose => s.(timeoutCloses := s.timeoutCloses + 1)
    case OutsideClose => s.(outsideCloses := s.outsideCloses + 1)
  }

  predicate Runs(g: Setup, s: State, steps: seq<Step>)
    decreases steps
  {
    steps == [] || (Enabled(g, s, steps[0]) && Runs(g, Apply(g, s, steps[0]), steps[1..]))
  }

  function Exec(g: Setup, s: State, steps: seq<Step>): State
    requires Runs(g, s, steps)
    decreases steps
  {
    if steps == [] then s else Exec(g, Apply(g, s, steps[0]), steps[1..])
  }

  /** The phase of a direction, out of the two. */
  function PhaseOf(toDest: Phase, toClient: Phase, d: Dir): Phase {
    if d.ToDest? then toDest else toClient
  }

  /** `all` holds exactly the posted results, each direction once. */
  predicate Accounts(all: seq<Result>, toDest: Phase, toClient: Phase) {
    && |all| == (if toDest.Posted? then 1 else 0) + (if toClient.Posted? then 1 else 0)
    && (|all| == 2 ==> all[0].dir != all[1].dir)
    && (forall i :: 0 <= i < |all| ==> PhaseOf(toDest, toClient, all[i].dir) == Posted(all[i].failed))
  }

  predicate ResultsOk(s: State) {
    Accounts(s.taken + s.channel, s.toDest.phase, s.toClient.phase)
  }

  predicate MainOk(s: State) {
    && |s.taken| == (match s.main case First => 0 case Interrupting(_) => 1 case Second => 1 case _ => 2)
    && (s.main.Interrupting? ==> 1 <= s.main.left <= 2 && s.interrupts == 2 - s.main.left)
    && (s.main.First? ==> s.interrupts == 0)
    && (s.taken != [] && !s.main.Interrupting? ==> s.interrupts == if s.taken[0].failed then 2 else 0)
    && (s.main.Interrupting? ==> s.taken[0].failed)
    && (s.main.Returned? ==> s.idle.ctl.stopped)
  }

  predicate Inv(g: Setup, s: State) {
    && CopyOk(s.toDest) && CopyOk(s.toClient)
    && ResultsOk(s)
    && MainOk(s)
    && Idle.Inv(g.idle, s.idle)
    && s.timeoutCloses <= 2 * |s.idle.decisions|
  }

  lemma IdleStep(g: Setup, i: Idle.State, step: Idle.Step)
    requires g.Valid() && Idle.Inv(g.idle, i) && Idle.Enabled(g.idle, i, step)
    ensures Idle.Inv(g.idle, Idle.Apply(g.idle, i, step))
    ensures i.ctl.stopped ==> Idle.Apply(g.idle, i, step).ctl.stopped
    ensures |i.decisions| <= |Idle.Apply(g.idle, i, step).decisions|
  {
  }

  lemma PostAccounts(all: seq<Result>, toDest: Phase, toClient: Phase, d: Dir, failed: bool)
    requires Accounts(all, toDest, toClient) && !PhaseOf(toDest, toClient, d).Posted?
    ensures Accounts(all + [Result(d, failed)],
                     if d.ToDest? then Posted(failed) else toDest, if d.ToDest? then toClient else Posted(failed))
  {
  }

  lemma UnpostedAccounts(all: seq<Result>, toDest: Phase, toClient: Phase, d: Dir, p: Phase)
    requires Accounts(all, toDest, toClient) && !PhaseOf(toDest, toClient, d).Posted? && !p.Posted?
    ensures Accounts(all, if d.ToDest? then p else toDest, if d.ToDest? then toClient else p)
  {
  }

  lemma CopyStepKeepsResults(g: Setup, s: State, d: Dir, act: Action)
    requires ResultsOk(s) && Enabled(g, s, Do(d, act))
    ensures ResultsOk(Apply(g, s, Do(d, act)))
  {
    var all := s.taken + s.channel;
    if act.Post? {
      var r := Result(d, s.Of(d).phase.failed);
      PostAccounts(all, s.toDest.phase, s.toClient.phase, d, r.failed);
      assert s.taken + (s.channel + [r]) == all + [r];
    } else {
      UnpostedAccounts(all, s.toDest.phase, s.toClient.phase, d, Moved(g, d, s.Of(d), act).phase);
    }
  }

  lemma CopyStepKeepsMain(g: Setup, s: State, d: Dir, act: Action)
    requires g.Valid() && MainOk(s) && Idle.Inv(g.idle, s.idle) && s.timeoutCloses <= 2 * |s.idle.decisions|
    requires Enabled(g, s, Do(d, act))
    ensures var s1 := Apply(g, s, Do(d, act));
            MainOk(s1) && Idle.Inv(g.idle, s1.idle) && s1.timeoutCloses <= 2 * |s1.idle.decisions|
  {
    if act.TouchIdle? {
      IdleStep(g, s.idle, Idle.Touch(act.lag));
    }
  }

  lemma MainStepKeepsResults(g: Setup, s: State, step: Step)
    requires ResultsOk(s) && !step.Do? && Enabled(g, s, step)
    ensures ResultsOk(Apply(g, s, step))
  {
    if s.channel != [] {
      assert (s.taken + [s.channel[0]]) + s.channel[1..] == s.taken + s.channel;
    }
  }

  lemma MainStepKeepsMain(g: Setup, s: State, step: Step)
    requires g.Valid() && MainOk(s) && Idle.Inv(g.idle, s.idle) && s.timeoutCloses <= 2 * |s.idle.decisions|
    requires !step.Do? && Enabled(g, s, step)
    ensures var s1 := Apply(g, s, step);
            MainOk(s1) && Idle.Inv(g.idle, s1.idle) && s1.timeoutCloses <= 2 * |s1.idle.decisions|
  {
    if step.StopIdle? {
    } else if step.Timer? {
      IdleStep(g, s.idle, step.step);
    }
  }

  lemma StepKeepsInv(g: Setup, s: State, step: Step)
    requires g.Valid() && Inv(g, s) && Enabled(g, s, step)
    ensures Inv(g, Apply(g, s, step))
    ensures Apply(g, s, step).toDest.input == s.toDest.input
    ensures Apply(g, s, step).toClient.input == s.toClient.input
  {
    if step.Do? {
      MovedOk(g, step.dir, s.Of(step.dir), step.act);
      CopyStepKeepsResults(g, s, step.dir, step.act);
      CopyStepKeepsMain(g, s, step.dir, step.act);
    } else {
      MainStepKeepsResults(g, s, step);
      MainStepKeepsMain(g, s, step);
    }
  }

  lemma {:induction false} InvAlways(g: Setup, s: State, steps: seq<Step>)
    requires g.Valid() && Inv(g, s) && Runs(g, s, steps)
    ensures Inv(g, Exec(g, s, steps))
    ensures Exec(g, s, steps).toDest.input == s.toDest.input
    ensures Exec(g, s, steps).toClient.input == s.toClient.input
    decreases steps
  {
    if steps != [] {
      StepKeepsInv(g, s, steps[0]);
      InvAlways(g, Apply(g, s, steps[0]), steps[1..]);
    }
  }

  /** A relay started on two arbitrary streams. */
  predicate IsRun(g: Setup, fromClient: Bytes, fromDest: Bytes, t: int, lag: nat, steps: seq<Step>) {
    g.Valid() && lag <= g.idle.maxLag && Runs(g, Begin(g, fromClient, fromDest, t, lag), steps)
  }

  function Sent(fromClient: Bytes, fromDest: Bytes, d: Dir): Bytes {
    if d.ToDest? then fromClient else fromDest
  }

  lemma InvOfRun(g: Setup, fromClient: Bytes, fromDest: Bytes, t: int, lag: nat, steps: seq<Step>)
    requires IsRun(g, fromClient, fromDest, t, lag, steps)
    ensures var s := Exec(g, Begin(g, fromClient, fromDest, t, lag), steps);
            Inv(g, s) && s.toDest.input == fromClient && s.toClient.input == fromDest
  {
    InvAlways(g, Begin(g, fromClient, fromDest, t, lag), steps);
  }

  /** Neither direction invents, reorders or duplicates bytes, and a side is half-closed only after
      everything up to the end of the opposite stream was written to it. */
  lemma RelayPreservesStreams(g: Setup, fromClient: Bytes, fromDest: Bytes, t: int, lag: nat, steps: seq<Step>, d: Dir)
    requires IsRun(g, fromClient, fromDest, t, lag, steps)
    ensures var c := Exec(g, Begin(g, fromClient, fromDest, t, lag), steps).Of(d);
            && c.output <= Sent(fromClient, fromDest, d)
            && (c.halfClosed ==> c.output == Sent(fromClient, fromDest, d))
  {
    InvOfRun(g, fromClient, fromDest, t, lag, steps);
  }

  /** The main goroutine interrupts the connections exactly when the first result is an error, before it
      waits for the second one; onTimeout touches a connection only after the timer has expired. */
  lemma InterruptsOnlyOnError(g: Setup, fromClient: Bytes, fromDest: Bytes, t: int, lag: nat, steps: seq<Step>)
    requires IsRun(g, fromClient, fromDest, t, lag, steps)
    ensures var s := Exec(g, Begin(g, fromClient, fromDest, t, lag), steps);
            && ((forall i :: 0 <= i < |s.taken| ==> !s.taken[i].failed) ==> s.interrupts == 0)
            && (s.taken != [] && !s.main.Interrupting? ==> s.interrupts == if s.taken[0].failed then 2 else 0)
            && (s.idle.decisions == [] ==> s.timeoutCloses == 0)
  {
    InvOfRun(g, fromClient, fromDest, t, lag, steps);
  }

  /** A copy that has finished can always post its result: the channel never blocks it. */
  lemma ResultSendNeverBlocks(g: Setup, fromClient: Bytes, fromDest: Bytes, t: int, lag: nat, steps: seq<Step>, d: Dir)
    requires IsRun(g, fromClient, fromDest, t, lag, steps)
    requires Exec(g, Begin(g, fromClient, fromDest, t, lag), steps).Of(d).phase.Posting?
    ensures Enabled(g, Exec(g, Begin(g, fromClient, fromDest, t, lag), steps), Do(d, Post))
  {
    InvOfRun(g, fromClient, fromDest, t, lag, steps);
  }

  /** When the relay has returned, both directions are over and the timer can decide nothing more; and if
      neither reported an error, both streams arrived completely, every side that can be half-closed was half-closed or
      found closed already, and nothing was interrupted. */
  lemma ReturnedRelayIsComplete(
      g: Setup, fromClient: Bytes, fromDest: Bytes, t: int, lag: nat, steps: seq<Step>, more: seq<Step>)
    requires IsRun(g, fromClient, fromDest, t, lag, steps)
    requires Exec(g, Begin(g, fromClient, fromDest, t, lag), steps).main.Returned?
    requires Runs(g, Exec(g, Begin(g, fromClient, fromDest, t, lag), steps), more)
    ensures var s := Exec(g, Begin(g, fromClient, fromDest, t, lag), steps);
            && s.toDest.phase.Posted? && s.toClient.phase.Posted?
            && Exec(g, s, more).idle.decisions == s.idle.decisions
            && ((forall i :: 0 <= i < |s.taken| ==> !s.taken[i].failed) ==>
                  && s.interrupts == 0
                  && s.toDest.output == fromClient
                  && s.toClient.output == fromDest
                  && (g.destHalfCloses ==> s.toDest.halfClosed || HalfCloses(steps, ToDest) == [AlreadyClosed])
                  && (g.clientHalfCloses ==> s.toClient.halfClosed || HalfCloses(steps, ToClient) == [AlreadyClosed]))
            && (s.toDest.halfClosed ==> g.destHalfCloses) && (s.toClient.halfClosed ==> g.clientHalfCloses)
  {
    InvOfRun(g, fromClient, fromDest, t, lag, steps);
    CleanCopyHalfCloses(g, fromClient, fromDest, t, lag, steps, ToDest);
    CleanCopyHalfCloses(g, fromClient, fromDest, t, lag, steps, ToClient);
    var s := Exec(g, Begin(g, fromClient, fromDest, t, lag), steps);
    NoDecisionOnceStopped(g, s, more);
  }

  lemma {:induction false} NoDecisionOnceStopped(g: Setup, s: State, more: seq<Step>)
    requires g.Valid() && s.idle.ctl.stopped && Runs(g, s, more)
    ensures Exec(g, s, more).idle.decisions == s.idle.decisions
    decreases more
  {
    if more != [] {
      NoDecisionOnceStopped(g, Apply(g, s, more[0]), more[1..]);
    }
  }

  // ---------------------------------------------------------------- half-closes, read off the steps

  /** How the half-closes of a direction went, in order. */
  function HalfCloses(steps: seq<Step>, d: Dir): seq<HalfClose> {
    if steps == [] then []
    else (if steps[0].Do? && steps[0].dir == d && steps[0].act.CloseWrite? then [steps[0].act.outcome] else [])
         + HalfCloses(steps[1..], d)
  }

  predicate IsOver(p: Phase) {
    p.Posting? || p.Posted?
  }

  /** What a copy has come to, given the half-closes it made. */
  predicate HalfClosesFit(g: Setup, d: Dir, c: Copy, closes: seq<HalfClose>) {
    if !IsOver(c.phase) then closes == [] && !c.halfClosed
    else if !c.phase.failed then
      && |closes| == 1 && (g.CanHalfClose(d) ==> !closes[0].Refused?)
      && (c.halfClosed <==> g.CanHalfClose(d) && closes[0].Done?)
    else
      !c.halfClosed && (closes == [] || (g.CanHalfClose(d) && closes == [Refused]))
  }

  lemma {:induction false} HalfClosesOfRun(g: Setup, s: State, steps: seq<Step>, d: Dir)
    requires Runs(g, s, steps)
    ensures IsOver(s.Of(d).phase) ==>
              && IsOver(Exec(g, s, steps).Of(d).phase) && HalfCloses(steps, d) == []
              && Exec(g, s, steps).Of(d).phase.failed == s.Of(d).phase.failed
              && Exec(g, s, steps).Of(d).halfClosed == s.Of(d).halfClosed
    ensures !IsOver(s.Of(d).phase) && !s.Of(d).halfClosed ==>
              HalfClosesFit(g, d, Exec(g, s, steps).Of(d), HalfCloses(steps, d))
    decreases steps
  {
    if steps != [] {
      HalfClosesOfRun(g, Apply(g, s, steps[0]), steps[1..], d);
    }
  }

  /** In every run: a direction that ended cleanly made exactly one half-close, which was not refused, and its target
      is half-closed exactly if it can be and was not closed already; a refused half-close makes the result an error,
      and after another error there is none. */
  lemma CleanCopyHalfCloses(g: Setup, fromClient: Bytes, fromDest: Bytes, t: int, lag: nat, steps: seq<Step>, d: Dir)
    requires IsRun(g, fromClient, fromDest, t, lag, steps)
    ensures var c := Exec(g, Begin(g, fromClient, fromDest, t, lag), steps).Of(d);
            HalfClosesFit(g, d, c, HalfCloses(steps, d))
  {
    HalfClosesOfRun(g, Begin(g, fromClient, fromDest, t, lag), steps, d);
  }

  // ---------------------------------------------------------------- activity, read off the steps

  function CountTouches(steps: seq<Step>, d: Dir): nat {
    if steps == [] then 0
    else (if steps[0].Do? && steps[0].dir == d && steps[0].act.TouchIdle? then 1 else 0) + CountTouches(steps[1..], d)
  }

  /** The reads that brought data. */
  function CountData(steps: seq<Step>, d: Dir): nat {
    if steps == [] then 0
    else (if steps[0].Do? && steps[0].dir == d && steps[0].act.Read? && steps[0].act.n > 0 then 1 else 0)
         + CountData(steps[1..], d)
  }

  lemma {:induction false} TouchesOfRun(g: Setup, s: State, steps: seq<Step>, d: Dir)
    requires Runs(g, s, steps)
    ensures CountTouches(steps, d) + (if Exec(g, s, steps).Of(d).phase.Touching? then 1 else 0) ==
            CountData(steps, d) + (if s.Of(d).phase.Touching? then 1 else 0)
    decreases steps
  {
    if steps != [] {
      TouchesOfRun(g, Apply(g, s, steps[0]), steps[1..], d);
    }
  }

  /** What the idle controller goes through in a run. */
  function IdleSteps(steps: seq<Step>): seq<Idle.Step> {
    if steps == [] then []
    else (match steps[0]
          case Do(_, TouchIdle(lag)) => [Idle.Touch(lag)]
          case StopIdle => [Idle.Stop]
          case Timer(step) => [step]
          case _ => [])
         + IdleSteps(steps[1..])
  }

  lemma {:induction false} IdleStepsOfRun(g: Setup, s: State, steps: seq<Step>)
    requires Runs(g, s, steps)
    ensures Idle.Runs(g.idle, s.idle, IdleSteps(steps))
    ensures Idle.Exec(g.idle, s.idle, IdleSteps(steps)) == Exec(g, s, steps).idle
    decreases steps
  {
    if steps != [] {
      IdleStepsOfRun(g, Apply(g, s, steps[0]), steps[1..]);
      var rest := IdleSteps(steps[1..]);
      if IdleSteps(steps) != rest {
        assert IdleSteps(steps)[1..] == rest;
      }
    }
  }

  lemma {:induction false} IdleStepsSplit(steps: seq<Step>, i: nat)
    requires i < |steps| && steps[i].Do? && steps[i].act.TouchIdle?
    ensures var before := IdleSteps(steps[..i]);
            && |before| < |IdleSteps(steps)| && IdleSteps(steps)[..|before|] == before
            && IdleSteps(steps)[|before|] == Idle.Touch(steps[i].act.lag)
    decreases i
  {
    if i > 0 {
      assert steps[..i][1..] == steps[1..][..i - 1];
      IdleStepsSplit(steps[1..], i - 1);
    }
  }

  /** In every run each read that brings data, in either direction, is noted as activity before the data is written,
      and the idle timeout is decided, if ever, a whole timeout after each such note that found the relay running. */
  lemma ActivityPutsOffTimeout(
      g: Setup, fromClient: Bytes, fromDest: Bytes, t: int, lag: nat, steps: seq<Step>, d: Dir, i: nat)
    requires IsRun(g, fromClient, fromDest, t, lag, steps)
    ensures var s := Exec(g, Begin(g, fromClient, fromDest, t, lag), steps);
            CountTouches(steps, d) + (if s.Of(d).phase.Touching? then 1 else 0) == CountData(steps, d)
    ensures i < |steps| && steps[i].Do? && steps[i].act.TouchIdle? ==>
              var start := Idle.Begin(g.idle, t, lag);
              var before := IdleSteps(steps[..i]);
              var s := Exec(g, Begin(g, fromClient, fromDest, t, lag), steps);
              && Idle.Runs(g.idle, start, before)
              && (!Idle.Exec(g.idle, start, before).ctl.stopped ==>
                    forall j :: 0 <= j < |s.idle.decisions| ==>
                      s.idle.decisions[j].at >= Idle.TimeOf(t + lag, before) + g.idle.timeout)
  {
    var s := Begin(g, fromClient, fromDest, t, lag);
    TouchesOfRun(g, s, steps, d);
    if i < |steps| && steps[i].Do? && steps[i].act.TouchIdle? {
      IdleStepsOfRun(g, s, steps);
      IdleStepsSplit(steps, i);
      Idle.TouchPutsOffTimeout(g.idle, t, lag, IdleSteps(steps), |IdleSteps(steps[..i])|);
    }
  }

  // ---------------------------------------------------------------- a relay that nothing disturbs

  /** What a copy does next when its source and its target do well: the last read brings the end with it. */
  function Flowing(c: Copy): Action
    requires CopyOk(c) && !c.phase.Posted?
  {
    match c.phase
    case Reading => if c.ahead > 0 then Read(c.ahead, More, 0) else Read(|c.input| - c.read, Eof, 0)
    case Touching(_, _) => TouchIdle(0)
    case Writing(chunk, _) => Write(|chunk|, false)
    case HalfClosing => CloseWrite(Done)
    case Posting(_) => Post
  }

  predicate Undisturbed(s: State) {
    s.interrupts == 0 && s.timeoutCloses == 0 && s.outsideCloses == 0 && s.idle.decisions == []
  }

  predicate FlowsWell(p: Phase) {
    ((p.Touching? || p.Writing?) ==> !p.end.Broken?) && (IsOver(p) ==> !p.failed)
  }

  function FlowRank(c: Copy): int {
    PhaseRank(c.phase) + 5 * (|c.input| - c.read) + 5 * (if c.phase.Reading? || AtEnd(c.phase) then 0 else 1)
  }

  predicate AtEnd(p: Phase) {
    p.HalfClosing? || IsOver(p) || ((p.Touching? || p.Writing?) && p.end.Eof?)
  }

  lemma FlowMoves(g: Setup, d: Dir, c: Copy)
    requires CopyOk(c) && FlowsWell(c.phase) && !c.phase.Posted?
    ensures CanMove(g, c, Flowing(c))
    ensures var c1 := Moved(g, d, c, Flowing(c));
            CopyOk(c1) && FlowsWell(c1.phase) && c1.input == c.input
  {
    MovedOk(g, d, c, Flowing(c));
  }

  lemma FlowStep(g: Setup, s: State, d: Dir)
    requires Undisturbed(s) && |s.channel| < 2
    requires CopyOk(s.Of(d)) && FlowsWell(s.Of(d).phase) && !s.Of(d).phase.Posted?
    ensures Enabled(g, s, Do(d, Flowing(s.Of(d))))
    ensures var s1 := Apply(g, s, Do(d, Flowing(s.Of(d))));
            && CopyOk(s1.Of(d)) && FlowsWell(s1.Of(d).phase) && s1.Of(d).input == s.Of(d).input
            && Undisturbed(s1) && s1.main == s.main && s1.taken == s.taken
            && (d.ToDest? ==> s1.toClient == s.toClient) && (d.ToClient? ==> s1.toDest == s.toDest)
            && s1.channel == (if s.Of(d).phase.Posting? then s.channel + [Result(d, false)] else s.channel)
  {
    FlowMoves(g, d, s.Of(d));
  }

  lemma FlowRanks(g: Setup, d: Dir, c: Copy)
    requires CopyOk(c) && FlowsWell(c.phase) && !c.phase.Posted?
    ensures CanMove(g, c, Flowing(c)) && FlowRank(Moved(g, d, c, Flowing(c))) < FlowRank(c)
  {
  }

  /** One direction runs to its end, and the other one waits. */
  lemma {:induction false} DirectionCompletes(g: Setup, s: State, d: Dir) returns (more: seq<Step>, end: State)
    requires Undisturbed(s) && |s.channel| < 2 && CopyOk(s.Of(d)) && FlowsWell(s.Of(d).phase) && !s.Of(d).phase.Posted?
    ensures Runs(g, s, more) && Exec(g, s, more) == end
    ensures end.Of(d).phase == Posted(false) && CopyOk(end.Of(d)) && end.Of(d).input == s.Of(d).input
    ensures Undisturbed(end) && end.main == s.main && end.taken == s.taken
    ensures end.channel == s.channel + [Result(d, false)]
    ensures (d.ToDest? ==> end.toClient == s.toClient) && (d.ToClient? ==> end.toDest == s.toDest)
    decreases FlowRank(s.Of(d))
  {
    var step := Do(d, Flowing(s.Of(d)));
    FlowStep(g, s, d);
    FlowRanks(g, d, s.Of(d));
    var s1 := Apply(g, s, step);
    var rest := [];
    end := s1;
    if !s1.Of(d).phase.Posted? {
      rest, end := DirectionCompletes(g, s1, d);
    }
    more := [step] + rest;
    assert more[1..] == rest;
  }

  lemma BothResultsTaken(g: Setup, s: State) returns (steps: seq<Step>, end: State)
    requires s.main.First? && s.taken == [] && s.channel == [Result(ToDest, false), Result(ToClient, false)]
    ensures Runs(g, s, steps) && Exec(g, s, steps) == end && end.main.Returned?
    ensures end.toDest == s.toDest && end.toClient == s.toClient && end.interrupts == s.interrupts
    ensures end.timeoutCloses == s.timeoutCloses && end.idle.decisions == s.idle.decisions
  {
    steps := [TakeFirst, TakeSecond, StopIdle];
    assert steps[1..] == [TakeSecond, StopIdle] && steps[1..][1..] == [StopIdle] && steps[1..][1..][1..] == [];
    end := Exec(g, s, steps);
  }

  /** Whatever two streams the peers send, the relay can deliver both and return. */
  lemma RelayCanComplete(g: Setup, fromClient: Bytes, fromDest: Bytes, t: int, lag: nat) returns (steps: seq<Step>)
    requires g.Valid() && lag <= g.idle.maxLag
    ensures IsRun(g, fromClient, fromDest, t, lag, steps)
    ensures var s := Exec(g, Begin(g, fromClient, fromDest, t, lag), steps);
            && s.main.Returned? && s.interrupts == 0 && s.timeoutCloses == 0 && s.idle.decisions == []
            && s.toDest.output == fromClient && s.toClient.output == fromDest
  {
    var s := Begin(g, fromClient, fromDest, t, lag);
    var first, s1 := DirectionCompletes(g, s, ToDest);
    var second, s2 := DirectionCompletes(g, s1, ToClient);
    var last, end := BothResultsTaken(g, s2);
    RunsConcat(g, s1, second, last);
    RunsConcat(g, s, first, second + last);
    steps := first + (second + last);
  }

  lemma StepInFront(g: Setup, s: State, step: Step, rest: seq<Step>)
    requires Enabled(g, s, step) && Runs(g, Apply(g, s, step), rest)
    ensures Runs(g, s, [step] + rest) && Exec(g, s, [step] + rest) == Exec(g, Apply(g, s, step), rest)
  {
    assert ([step] + rest)[1..] == rest;
  }

  lemma {:induction false} RunsConcat(g: Setup, s: State, first: seq<Step>, second: seq<Step>)
    requires Runs(g, s, first) && Runs(g, Exec(g, s, first), second)
    ensures Runs(g, s, first + second) && Exec(g, s, first + second) == Exec(g, Exec(g, s, first), second)
    decreases first
  {
    if first == [] {
      assert first + second == second;
    } else {
      assert (first + second)[1..] == first[1..] + second;
      RunsConcat(g, Apply(g, s, first[0]), first[1..], second);
    }
  }

  // ---------------------------------------------------------------- a cut relay comes to its end

  predicate BothCut(s: State) {
    s.ClientCut() && s.DestCut()
  }

  /** The steps of the two copies and of the main goroutine. */
  predicate IsRelayStep(step: Step) {
    !step.Timer? && !step.TimeoutClose? && !step.OutsideClose?
  }

  function CountSteps(steps: seq<Step>): nat {
    if steps == [] then 0 else (if IsRelayStep(steps[0]) then 1 else 0) + CountSteps(steps[1..])
  }

  function MainRank(m: Main): nat {
    match m case First => 5 case Interrupting(left) => 2 + left case Second => 2 case Stopping => 1 case Returned => 0
  }

  /** How many steps a copy can still take once both connections are cut: no write succeeds any more, or, towards
      the client of a stream, nothing arrives beyond what is buffered. */
  function CopyRank(g: Setup, d: Dir, c: Copy): int {
    if g.stream && d.ToClient? then
      3 * c.ahead +
      match c.phase
      case Touching(_, _) => 5
      case Writing(_, _) => 4
      case Reading => 3
      case HalfClosing => 2
      case Posting(_) => 1
      case Posted(_) => 0
    else
      PhaseRank(c.phase)
  }

  function PhaseRank(p: Phase): int {
    match p
    case Reading => 5
    case Touching(_, _) => 4
    case Writing(_, _) => 3
    case HalfClosing => 2
    case Posting(_) => 1
    case Posted(_) => 0
  }

  function Rank(g: Setup, s: State): int {
    MainRank(s.main) + CopyRank(g, ToDest, s.toDest) + CopyRank(g, ToClient, s.toClient)
  }

  lemma CopyStepRanks(g: Setup, s: State, d: Dir, act: Action)
    requires Enabled(g, s, Do(d, act)) && BothCut(s)
    ensures CopyRank(g, d, Moved(g, d, s.Of(d), act)) < CopyRank(g, d, s.Of(d))
  {
  }

  lemma StepRanks(g: Setup, s: State, step: Step)
    requires Enabled(g, s, step) && MainOk(s) && BothCut(s)
    ensures BothCut(Apply(g, s, step))
    ensures Rank(g, Apply(g, s, step)) + (if IsRelayStep(step) then 1 else 0) <= Rank(g, s)
  {
    if step.Do? {
      CopyStepRanks(g, s, step.dir, step.act);
    }
  }

  lemma {:induction false} RunRanks(g: Setup, s: State, more: seq<Step>)
    requires g.Valid() && Inv(g, s) && BothCut(s) && Runs(g, s, more)
    ensures BothCut(Exec(g, s, more)) && Rank(g, Exec(g, s, more)) + CountSteps(more) <= Rank(g, s)
    ensures !OwesClient(g, s) ==> !OwesClient(g, Exec(g, s, more))
    decreases more
  {
    if more != [] {
      StepRanks(g, s, more[0]);
      StepKeepsInv(g, s, more[0]);
      if !OwesClient(g, s) {
        OwesNothingNew(g, s, more[0]);
      }
      RunRanks(g, Apply(g, s, more[0]), more[1..]);
    }
  }

  /** The step waits for no peer: it is internal, a read or write on a cut connection, or a read of buffered bytes. */
  predicate NeedsNoPeer(g: Setup, s: State, step: Step) {
    match step
    case Do(d, act) => (act.Read? ==> s.SourceCut(d) || s.Of(d).ahead > 0) && (act.Write? ==> g.TargetCut(s, d))
    case Timer(_) => false
    case OutsideClose => false
    case _ => true
  }

  /** All that is left is a write to the client of a stream, which waits for that client. */
  predicate WaitsForClient(g: Setup, s: State) {
    && g.stream && s.toClient.phase.Writing?
    && s.toDest.phase.Posted? && s.channel == [] && (s.main.First? || s.main.Second?)
  }

  ghost predicate CanContinue(g: Setup, s: State) {
    exists step :: IsRelayStep(step) && NeedsNoPeer(g, s, step) && Enabled(g, s, step)
  }

  /** A step that ends an unfinished copy, or brings it closer to its end. */
  function Finishing(c: Copy): Action
    requires !c.phase.Posted?
  {
    match c.phase
    case Reading => if c.ahead > 0 then Read(c.ahead, More, 0) else Read(0, Broken, 0)
    case Touching(_, _) => TouchIdle(0)
    case Writing(_, _) => Write(0, true)
    case HalfClosing => CloseWrite(Done)
    case Posting(_) => Post
  }

  /** The main goroutine waits only while a copy is unfinished. */
  lemma SomeoneIsBusy(s: State)
    requires ResultsOk(s) && MainOk(s) && s.channel == [] && (s.main.First? || s.main.Second?)
    ensures !s.toDest.phase.Posted? || !s.toClient.phase.Posted?
  {
  }

  /** What can happen next in an unreturned relay: cutting comes first. */
  function NextStep(s: State): Step
    requires ResultsOk(s) && MainOk(s) && !s.main.Returned?
  {
    if s.timeoutCloses < 2 * |s.idle.decisions| then TimeoutClose
    else if s.main.Interrupting? then Interrupt
    else if s.main.Stopping? then StopIdle
    else if s.channel != [] then if s.main.First? then TakeFirst else TakeSecond
    else
      SomeoneIsBusy(s);
      if !s.toDest.phase.Posted? then Do(ToDest, Finishing(s.toDest)) else Do(ToClient, Finishing(s.toClient))
  }

  lemma FinishingRanks(g: Setup, s: State, d: Dir)
    requires CopyOk(s.Of(d)) && !s.Of(d).phase.Posted? && |s.channel| < 2
    ensures var act := Finishing(s.Of(d));
            && Enabled(g, s, Do(d, act))
            && CopyRank(g, d, Moved(g, d, s.Of(d), act)) < CopyRank(g, d, s.Of(d))
            && (BothCut(s) && !(g.stream && d.ToClient? && s.Of(d).phase.Writing?) ==> NeedsNoPeer(g, s, Do(d, act)))
  {
  }

  /** The closes onTimeout still has before it. */
  function ClosesLeft(s: State): int {
    2 * |s.idle.decisions| - s.timeoutCloses
  }

  lemma NextStepEnabled(g: Setup, s: State)
    requires g.Valid() && Inv(g, s) && !s.main.Returned?
    ensures Enabled(g, s, NextStep(s))
    ensures var s1 := Apply(g, s, NextStep(s));
            Rank(g, s1) + ClosesLeft(s1) < Rank(g, s) + ClosesLeft(s)
  {
    if NextStep(s).TimeoutClose? {
    } else if (s.main.First? || s.main.Second?) && s.channel == [] {
      SomeoneIsBusy(s);
      FinishingRanks(g, s, if !s.toDest.phase.Posted? then ToDest else ToClient);
    }
  }

  lemma CanContinueIff(g: Setup, s: State)
    requires g.Valid() && Inv(g, s) && BothCut(s)
    ensures CanContinue(g, s) <==> !s.main.Returned? && !WaitsForClient(g, s)
  {
    if s.main.Interrupting? {
      assert NeedsNoPeer(g, s, Interrupt);
    } else if s.main.Stopping? {
      assert NeedsNoPeer(g, s, StopIdle);
    } else if s.main.First? && s.channel != [] {
      assert NeedsNoPeer(g, s, TakeFirst);
    } else if s.main.Second? && s.channel != [] {
      assert NeedsNoPeer(g, s, TakeSecond);
    } else if !s.main.Returned? {
      SomeoneIsBusy(s);
      var d := if !s.toDest.phase.Posted? then ToDest else ToClient;
      FinishingRanks(g, s, d);
      if !WaitsForClient(g, s) {
        assert IsRelayStep(Do(d, Finishing(s.Of(d))));
      }
    }
  }

  /** Once both connections are cut, every run of the relay is short, whatever the peers do; and wherever it stops,
      the relay has returned, or can continue without a peer, or is a stream that waits for its client to take data.
      Nothing new comes to be owed to that client. */
  lemma CutRelayTerminates(
      g: Setup, fromClient: Bytes, fromDest: Bytes, t: int, lag: nat, steps: seq<Step>, more: seq<Step>)
    requires IsRun(g, fromClient, fromDest, t, lag, steps)
    requires BothCut(Exec(g, Begin(g, fromClient, fromDest, t, lag), steps))
    requires Runs(g, Exec(g, Begin(g, fromClient, fromDest, t, lag), steps), more)
    ensures var s := Exec(g, Begin(g, fromClient, fromDest, t, lag), steps);
            var after := Exec(g, s, more);
            && CountSteps(more) <= 15 + (if g.stream then 3 * s.toClient.ahead else 0)
            && (CanContinue(g, after) <==> !after.main.Returned? && !WaitsForClient(g, after))
            && (!OwesClient(g, s) ==> !OwesClient(g, after))
  {
    InvOfRun(g, fromClient, fromDest, t, lag, steps);
    var s := Exec(g, Begin(g, fromClient, fromDest, t, lag), steps);
    RunRanks(g, s, more);
    InvAlways(g, s, more);
    CanContinueIff(g, Exec(g, s, more));
  }

  /** What a cut does, by the counters of those that cut: the first close or interrupt is the client's, the second the
      destination's. */
  predicate CutTimes(s: State, n: nat) {
    s.interrupts >= n || s.timeoutCloses >= n || s.outsideCloses >= n
  }

  /** A copy read nothing new, and counts nothing as written, since its source or its target was cut. */
  predicate NothingNewRead(before: Copy, after: Copy) {
    after.read + after.ahead <= before.read + before.ahead
  }

  predicate NothingMoreWritten(before: Copy, after: Copy) {
    !IsOver(before.phase) && IsOver(after.phase) && !after.phase.failed ==> after.output == before.output
  }

  lemma {:induction false} CutStopsReads(g: Setup, s: State, more: seq<Step>)
    requires Runs(g, s, more)
    ensures CutTimes(s, 1) ==> NothingNewRead(s.toDest, Exec(g, s, more).toDest)
    ensures CutTimes(s, 2) ==> NothingNewRead(s.toClient, Exec(g, s, more).toClient)
    decreases more
  {
    if more != [] {
      CutStopsReads(g, Apply(g, s, more[0]), more[1..]);
    }
  }

  lemma {:induction false} CutStopsWrites(g: Setup, s: State, more: seq<Step>)
    requires Runs(g, s, more)
    ensures CutTimes(s, 2) ==> NothingMoreWritten(s.toDest, Exec(g, s, more).toDest)
    ensures CutTimes(s, 1) && !g.stream ==> NothingMoreWritten(s.toClient, Exec(g, s, more).toClient)
    decreases more
  {
    if more != [] {
      var s1 := Apply(g, s, more[0]);
      CutStopsWrites(g, s1, more[1..]);
      if IsOver(s1.toDest.phase) {
        OverKeepsOutput(g, s1, more[1..], ToDest);
      }
      if IsOver(s1.toClient.phase) {
        OverKeepsOutput(g, s1, more[1..], ToClient);
      }
    }
  }

  /** From any state: once the client is cut nothing new is read from it, and once the destination is cut nothing from
      that; and a direction whose target is cut either fails or had everything written before. */
  lemma CutStopsFlow(g: Setup, s: State, more: seq<Step>)
    requires Runs(g, s, more)
    ensures CutTimes(s, 1) ==> NothingNewRead(s.toDest, Exec(g, s, more).toDest)
    ensures CutTimes(s, 2) ==> NothingNewRead(s.toClient, Exec(g, s, more).toClient)
    ensures CutTimes(s, 2) ==> NothingMoreWritten(s.toDest, Exec(g, s, more).toDest)
    ensures CutTimes(s, 1) && !g.stream ==> NothingMoreWritten(s.toClient, Exec(g, s, more).toClient)
  {
    CutStopsReads(g, s, more);
    CutStopsWrites(g, s, more);
  }

  /** Conversely, a connection that is not cut yet can still deliver what is unread, and take what is written. */
  lemma UncutStillFlows(g: Setup, s: State)
    requires CopyOk(s.toDest) && CopyOk(s.toClient)
    ensures !CutTimes(s, 1) && s.toDest.phase.Reading? && s.toDest.ahead == 0 && s.toDest.read < |s.toDest.input| ==>
              Enabled(g, s, Do(ToDest, Read(|s.toDest.input| - s.toDest.read, More, 0)))
    ensures !CutTimes(s, 2) && s.toClient.phase.Reading? && s.toClient.ahead == 0
            && s.toClient.read < |s.toClient.input| ==>
              Enabled(g, s, Do(ToClient, Read(|s.toClient.input| - s.toClient.read, More, 0)))
    ensures !CutTimes(s, 2) && s.toDest.phase.Writing? ==>
              Enabled(g, s, Do(ToDest, Write(|s.toDest.phase.chunk|, false)))
    ensures (!CutTimes(s, 1) || g.stream) && s.toClient.phase.Writing? ==>
              Enabled(g, s, Do(ToClient, Write(|s.toClient.phase.chunk|, false)))
  {
  }

  lemma {:induction false} OverKeepsOutput(g: Setup, s: State, more: seq<Step>, d: Dir)
    requires Runs(g, s, more) && IsOver(s.Of(d).phase)
    ensures IsOver(Exec(g, s, more).Of(d).phase) && Exec(g, s, more).Of(d).output == s.Of(d).output
    ensures Exec(g, s, more).Of(d).phase.failed == s.Of(d).phase.failed
    decreases more
  {
    if more != [] {
      OverKeepsOutput(g, Apply(g, s, more[0]), more[1..], d);
    }
  }

  // ---------------------------------------------------------------- an error or a timeout cuts the relay

  /** Both connections are cut, or will be: the first result is an error, or the idle timer has expired. */
  predicate Doomed(s: State) {
    || BothCut(s)
    || s.idle.decisions != []
    || (s.taken + s.channel != [] && (s.taken + s.channel)[0].failed)
  }

  predicate IsCutStep(step: Step) {
    step.TakeFirst? || step.Interrupt? || step.TimeoutClose?
  }

  function CountCuts(steps: seq<Step>): nat {
    if steps == [] then 0 else (if IsCutStep(steps[0]) then 1 else 0) + CountCuts(steps[1..])
  }

  function CutRank(s: State): int {
    2 - s.timeoutCloses + match s.main case First => 3 case Interrupting(left) => left case _ => 0
  }

  lemma DoomStays(g: Setup, s: State, step: Step)
    requires Enabled(g, s, step) && Doomed(s)
    ensures Doomed(Apply(g, s, step))
  {
    var s1 := Apply(g, s, step);
    assert s.taken + s.channel <= s1.taken + s1.channel;
  }

  lemma CutsCount(g: Setup, s: State, step: Step)
    requires MainOk(s) && Enabled(g, s, step)
    ensures (if IsCutStep(step) then 1 else 0) + CutRank(Apply(g, s, step)) <= CutRank(s)
  {
  }

  lemma {:induction false} DoomedRun(g: Setup, s: State, more: seq<Step>)
    requires g.Valid() && Inv(g, s) && Doomed(s) && Runs(g, s, more)
    ensures Doomed(Exec(g, s, more)) && CountCuts(more) + CutRank(Exec(g, s, more)) <= CutRank(s)
    decreases more
  {
    if more != [] {
      DoomStays(g, s, more[0]);
      CutsCount(g, s, more[0]);
      StepKeepsInv(g, s, more[0]);
      DoomedRun(g, Apply(g, s, more[0]), more[1..]);
    }
  }

  lemma CutStepPossible(g: Setup, s: State)
    requires Inv(g, s) && Doomed(s) && !BothCut(s)
    ensures exists step :: IsCutStep(step) && Enabled(g, s, step)
  {
    var step := if s.idle.decisions != [] then TimeoutClose else if s.main.First? then TakeFirst else Interrupt;
    assert IsCutStep(step) && Enabled(g, s, step);
  }

  /** After a first result that is an error, or an expired idle timer, the main goroutine or onTimeout cuts both
      connections in at most five steps, one of which is possible until it is done, whatever the peers do. */
  lemma DoomedRelayIsCut(
      g: Setup, fromClient: Bytes, fromDest: Bytes, t: int, lag: nat, steps: seq<Step>, more: seq<Step>)
    requires IsRun(g, fromClient, fromDest, t, lag, steps)
    requires Doomed(Exec(g, Begin(g, fromClient, fromDest, t, lag), steps))
    requires Runs(g, Exec(g, Begin(g, fromClient, fromDest, t, lag), steps), more)
    ensures var after := Exec(g, Exec(g, Begin(g, fromClient, fromDest, t, lag), steps), more);
            && CountCuts(more) <= 5
            && (BothCut(after) || exists step :: IsCutStep(step) && Enabled(g, after, step))
  {
    InvOfRun(g, fromClient, fromDest, t, lag, steps);
    var s := Exec(g, Begin(g, fromClient, fromDest, t, lag), steps);
    DoomedRun(g, s, more);
    InvAlways(g, s, more);
    var after := Exec(g, s, more);
    if !BothCut(after) {
      CutStepPossible(g, after);
    }
  }

  // ---------------------------------------------------------------- the relay cannot get stuck

  /** A run that waits for no peer. */
  predicate OwnRun(g: Setup, s: State, steps: seq<Step>)
    requires Runs(g, s, steps)
    decreases steps
  {
    steps == [] || (NeedsNoPeer(g, s, steps[0]) && OwnRun(g, Apply(g, s, steps[0]), steps[1..]))
  }

  /** A stream has data for its client, in hand or buffered. */
  predicate OwesClient(g: Setup, s: State) {
    && g.stream
    && (s.toClient.phase.Touching? || s.toClient.phase.Writing? || (s.toClient.phase.Reading? && s.toClient.ahead > 0))
  }

  /** Once both connections are cut, nothing new is owed, whatever the peers do. */
  lemma OwesNothingNew(g: Setup, s: State, step: Step)
    requires BothCut(s) && !OwesClient(g, s) && Enabled(g, s, step)
    ensures !OwesClient(g, Apply(g, s, step))
  {
  }

  /** Without a peer, what is owed stays owed, and nothing new is. */
  lemma OwnStepKeepsDebt(g: Setup, s: State, step: Step)
    requires Enabled(g, s, step) && NeedsNoPeer(g, s, step)
    ensures OwesClient(g, Apply(g, s, step)) <==> OwesClient(g, s)
  {
  }

  lemma NextStepIsOwn(g: Setup, s: State)
    requires g.Valid() && Inv(g, s) && !s.main.Returned? && Doomed(s) && !OwesClient(g, s)
    ensures NeedsNoPeer(g, s, NextStep(s)) && Enabled(g, s, NextStep(s))
  {
    NextStepEnabled(g, s);
    if NextStep(s).Do? {
      SomeoneIsBusy(s);
      FinishingRanks(g, s, if !s.toDest.phase.Posted? then ToDest else ToClient);
    }
  }

  lemma {:induction false} CanReturn(g: Setup, s: State) returns (more: seq<Step>, end: State)
    requires g.Valid() && Inv(g, s)
    ensures Runs(g, s, more) && Exec(g, s, more) == end && end.main.Returned?
    decreases Rank(g, s) + ClosesLeft(s)
  {
    more, end := [], s;
    if !s.main.Returned? {
      var step := NextStep(s);
      NextStepEnabled(g, s);
      StepKeepsInv(g, s, step);
      var rest;
      rest, end := CanReturn(g, Apply(g, s, step));
      StepInFront(g, s, step, rest);
      more := [step] + rest;
    }
  }

  // ---------------------------------------------------------------- runs without the peers

  /** How many steps a relay can take without a peer. */
  function OwnRank(s: State): int {
    MainRank(s.main) + PhaseRank(s.toDest.phase) + PhaseRank(s.toClient.phase) + ClosesLeft(s)
  }

  lemma OwnActionRanks(g: Setup, s: State, d: Dir, act: Action)
    requires Enabled(g, s, Do(d, act)) && NeedsNoPeer(g, s, Do(d, act))
    ensures PhaseRank(Moved(g, d, s.Of(d), act).phase) < PhaseRank(s.Of(d).phase)
  {
  }

  lemma OwnStepRanks(g: Setup, s: State, step: Step)
    requires MainOk(s) && Enabled(g, s, step) && NeedsNoPeer(g, s, step)
    ensures OwnRank(Apply(g, s, step)) < OwnRank(s)
  {
    if step.Do? {
      OwnActionRanks(g, s, step.dir, step.act);
    }
  }

  ghost predicate OwnStepPossible(g: Setup, s: State) {
    exists step :: NeedsNoPeer(g, s, step) && Enabled(g, s, step)
  }

  /** What every run without a peer keeps, and how long it can be. */
  lemma {:induction false} OwnRunKeeps(g: Setup, s: State, more: seq<Step>)
    requires g.Valid() && Inv(g, s) && Runs(g, s, more) && OwnRun(g, s, more)
    ensures Inv(g, Exec(g, s, more)) && (Doomed(s) ==> Doomed(Exec(g, s, more)))
    ensures OwesClient(g, Exec(g, s, more)) <==> OwesClient(g, s)
    ensures OwnRank(Exec(g, s, more)) + |more| <= OwnRank(s)
    decreases more
  {
    if more != [] {
      var step := more[0];
      StepKeepsInv(g, s, step);
      OwnStepKeepsDebt(g, s, step);
      OwnStepRanks(g, s, step);
      if Doomed(s) {
        DoomStays(g, s, step);
      }
      OwnRunKeeps(g, Apply(g, s, step), more[1..]);
    }
  }

  lemma OwnRunIsShort(g: Setup, s: State, more: seq<Step>)
    requires g.Valid() && Inv(g, s) && Runs(g, s, more) && OwnRun(g, s, more)
    ensures |more| <= 17
  {
    OwnRunKeeps(g, s, more);
  }

  /** Going on without a peer as long as possible. */
  lemma {:induction false} RunOut(g: Setup, s: State) returns (more: seq<Step>, end: State)
    requires g.Valid() && Inv(g, s)
    ensures Runs(g, s, more) && OwnRun(g, s, more) && Exec(g, s, more) == end && !OwnStepPossible(g, end)
    decreases OwnRank(s)
  {
    more, end := [], s;
    if OwnStepPossible(g, s) {
      var step :| NeedsNoPeer(g, s, step) && Enabled(g, s, step);
      StepKeepsInv(g, s, step);
      OwnStepRanks(g, s, step);
      var rest;
      rest, end := RunOut(g, Apply(g, s, step));
      more := [step] + rest;
      assert more[1..] == rest;
    }
  }

  /** However the relay runs without a peer, it does not stop before it has returned. */
  ghost predicate EndsByItself(g: Setup, s: State) {
    forall more :: Runs(g, s, more) && OwnRun(g, s, more) ==>
      Exec(g, s, more).main.Returned? || OwnStepPossible(g, Exec(g, s, more))
  }

  /** Some run without a peer brings the relay to return. */
  ghost predicate CanEndByItself(g: Setup, s: State) {
    exists more :: Runs(g, s, more) && OwnRun(g, s, more) && Exec(g, s, more).main.Returned?
  }

  lemma EndsByItselfIff(g: Setup, s: State)
    requires g.Valid() && Inv(g, s) && Doomed(s)
    ensures EndsByItself(g, s) <==> !OwesClient(g, s)
    ensures CanEndByItself(g, s) <==> !OwesClient(g, s)
  {
    var longest, _ := RunOut(g, s);
    forall more | Runs(g, s, more) && OwnRun(g, s, more)
      ensures var after := Exec(g, s, more);
              && (OwesClient(g, s) ==> !after.main.Returned?)
              && (!OwesClient(g, s) ==> after.main.Returned? || OwnStepPossible(g, after))
    {
      OwnRunKeeps(g, s, more);
      var after := Exec(g, s, more);
      if !OwesClient(g, s) && !after.main.Returned? {
        NextStepIsOwn(g, after);
      }
    }
  }

  /** In no reachable state is the relay deadlocked. After an error, an idle timeout or a shutdown it returns in every
      run without the peers, within 17 steps, if and only if it is not a stream that owes its client data; and if it
      is one, it does so in none. */
  lemma RelayNeverStuck(g: Setup, fromClient: Bytes, fromDest: Bytes, t: int, lag: nat, steps: seq<Step>)
    requires IsRun(g, fromClient, fromDest, t, lag, steps)
    ensures var s := Exec(g, Begin(g, fromClient, fromDest, t, lag), steps);
            && (exists more :: Runs(g, s, more) && Exec(g, s, more).main.Returned?)
            && (forall more :: Runs(g, s, more) && OwnRun(g, s, more) ==> |more| <= 17)
            && (Doomed(s) ==> (EndsByItself(g, s) <==> !OwesClient(g, s)))
            && (Doomed(s) ==> (CanEndByItself(g, s) <==> !OwesClient(g, s)))
  {
    InvOfRun(g, fromClient, fromDest, t, lag, steps);
    var s := Exec(g, Begin(g, fromClient, fromDest, t, lag), steps);
    var _, _ := CanReturn(g, s);
    forall more | Runs(g, s, more) && OwnRun(g, s, more) ensures |more| <= 17 {
      OwnRunIsShort(g, s, more);
    }
    if Doomed(s) {
      EndsByItselfIff(g, s);
    }
  }

  /** Such streams exist: one that a shutdown closes after it read a byte for its client, and one that it closes
      while the byte is still buffered behind the response of the upstream proxy. */
  lemma SomeStreamsWait(g: Setup, b: byte, t: int)
    requires g.Valid() && g.stream
    ensures var s := Begin(g, [], [b], t, 0);
            var steps := [Do(ToClient, Read(1, More, 0)), OutsideClose, OutsideClose];
            && IsRun(g, [], [b], t, 0, steps) && BothCut(Exec(g, s, steps)) && OwesClient(g, Exec(g, s, steps))
    ensures g.destAhead > 0 ==>
              var s := Begin(g, [], [b], t, 0);
              var steps := [OutsideClose, OutsideClose];
              && IsRun(g, [], [b], t, 0, steps) && BothCut(Exec(g, s, steps)) && OwesClient(g, Exec(g, s, steps))
  {
    var s, read := Begin(g, [], [b], t, 0), Do(ToClient, Read(1, More, 0));
    var cuts := [OutsideClose, OutsideClose];
    assert cuts[1..] == [OutsideClose] && [OutsideClose][1..] == [];
    var steps := [read, OutsideClose, OutsideClose];
    assert steps[1..] == cuts;
  }
}
