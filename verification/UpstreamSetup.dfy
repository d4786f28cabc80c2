/**
 The setup of a tunnel through an upstream proxy: dialApprovedUpstream of internal/proxy/upstream.go after
 the dial. A context that ends during the setup interrupts it by moving the connection's deadline into the
 past, from a goroutine of its own; stopping that interrupt, clearing the deadline and returning race with it.
 */
module UpstreamSetup {
  import opened Options

  datatype Phase =
    | SetDeadline
    | Register        // context.AfterFunc
    | Handshake       // https upstreams only
    | SendRequest
    | ReadResponse
    | StopInterrupt
    | CheckStatus(code: int)
    | ClearDeadline
    | Failing         // close the connection
    | Leaving(ok: bool)     // deferred stopSetupInterrupt
    | Cancelling(ok: bool)  // deferred cancel
    | Returned(ok: bool)

  /** The function given to AfterFunc: not registered, waiting for the context, started in its goroutine,
      finished, or prevented from ever starting. */
  datatype Interrupt = Unset | Waiting | Started | Ran | Prevented

  datatype Deadline = NoDeadline | Setup | Past

  datatype State = State(
    phase: Phase, https: bool, code: int, open: bool, deadline: Deadline, interrupt: Interrupt, contextDone: bool)

  datatype Step =
    | DoSetDeadline(ok: bool)
    | DoRegister
    | DoHandshake(ok: bool)
    | DoSend(ok: bool)
    | DoRead(code: Option<int>)
    | DoStop
    | DoCheckStatus
    | DoClear(ok: bool)
    | DoClose
    | DeferredStop
    | DeferredCancel
    | ContextEnds
    | RunInterrupt

  function Dialed(https: bool, contextDone: bool): State {
    State(SetDeadline, https, 0, true, NoDeadline, Unset, contextDone)
  }

  predicate Enabled(s: State, step: Step) {
    match step
    case DoSetDeadline(_) => s.phase.SetDeadline?
    case DoRegister => s.phase.Register?
    case DoHandshake(_) => s.phase.Handshake?
    case DoSend(_) => s.phase.SendRequest?
    case DoRead(_) => s.phase.ReadResponse?
    case DoStop => s.phase.StopInterrupt?
    case DoCheckStatus => s.phase.CheckStatus?
    case DoClear(_) => s.phase.ClearDeadline?
    case DoClose => s.phase.Failing?
    case DeferredStop => s.phase.Leaving?
    case DeferredCancel => s.phase.Cancelling?
    case ContextEnds => true
    case RunInterrupt => s.interrupt.Started?
  }

  /** The context ends: a waiting interrupt starts, in its own goroutine. */
  function Triggered(i: Interrupt): Interrupt {
    if i.Waiting? then Started else i
  }

  /** The stop function of AfterFunc; it reports whether it prevented the call. */
  function Stopped(i: Interrupt): Interrupt {
    if i.Waiting? then Prevented else i
  }

  function Apply(s: State, step: Step): State
    requires Enabled(s, step)
  {
    match step
    case DoSetDeadline(ok) => if ok then s.(deadline := Setup, phase := Register) else s.(phase := Failing)
    case DoRegister =>
      s.(interrupt := if s.contextDone then Started else Waiting, phase := if s.https then Handshake else SendRequest)
    case DoHandshake(ok) => s.(phase := if ok then SendRequest else Failing)
    case DoSend(ok) => s.(phase := if ok then ReadResponse else Failing)
    case DoRead(code) => if code.None? then s.(phase := Failing) else s.(phase := StopInterrupt, code := code.value)
    case DoStop =>
      s.(interrupt := Stopped(s.interrupt), phase := if s.interrupt.Waiting? then CheckStatus(s.code) else Failing)
    case DoCheckStatus => s.(phase := if s.phase.code == 200 then ClearDeadline else Failing)
    case DoClear(ok) => if ok then s.(deadline := NoDeadline, phase := Leaving(true)) else s.(phase := Failing)
    case DoClose => s.(open := false, phase := Leaving(false))
    case DeferredStop => s.(interrupt := Stopped(s.interrupt), phase := Cancelling(s.phase.ok))
    case DeferredCancel => s.(contextDone := true, interrupt := Triggered(s.interrupt), phase := Returned(s.phase.ok))
    case ContextEnds => s.(contextDone := true, interrupt := Triggered(s.interrupt))
    case RunInterrupt => s.(interrupt := Ran, deadline := Past)
  }

  predicate Runs(s: State, steps: seq<Step>)
    decreases steps
  {
    steps == [] || (Enabled(s, steps[0]) && Runs(Apply(s, steps[0]), steps[1..]))
  }

  function Exec(s: State, steps: seq<Step>): State
    requires Runs(s, steps)
    decreases steps
  {
    if steps == [] then s else Exec(Apply(s, steps[0]), steps[1..])
  }

  predicate Succeeding(p: Phase) {
    (p.Leaving? || p.Cancelling? || p.Returned?) && p.ok
  }

  predicate Inv(s: State) {
    && (s.phase.SetDeadline? || s.phase.Register? ==> s.interrupt.Unset?)
    && (s.phase.Handshake? || s.phase.SendRequest? || s.phase.ReadResponse? || s.phase.StopInterrupt? ==>
          !s.interrupt.Unset? && !s.interrupt.Prevented?)
    && (s.phase.CheckStatus? || s.phase.ClearDeadline? || Succeeding(s.phase) ==> s.interrupt.Prevented?)
    && (s.phase.CheckStatus? ==> s.phase.code == s.code)
    && (s.phase.ClearDeadline? || Succeeding(s.phase) ==> s.code == 200)
    && (Succeeding(s.phase) ==> s.open && s.deadline.NoDeadline?)
    && (s.phase.Leaving? || s.phase.Cancelling? || s.phase.Returned? ==> s.open == s.phase.ok)
    && (!(s.phase.Leaving? || s.phase.Cancelling? || s.phase.Returned?) ==> s.open)
    && (s.phase.Cancelling? || s.phase.Returned? ==> !s.interrupt.Waiting?)
  }

  lemma StepKeepsInv(s: State, step: Step)
    requires Inv(s) && Enabled(s, step)
    ensures Inv(Apply(s, step))
  {
  }

  lemma {:induction false} InvAlways(s: State, steps: seq<Step>)
    requires Inv(s) && Runs(s, steps)
    ensures Inv(Exec(s, steps))
    decreases steps
  {
    if steps != [] {
      StepKeepsInv(s, steps[0]);
      InvAlways(Apply(s, steps[0]), steps[1..]);
    }
  }

  lemma {:induction false} StaysReturned(s: State, more: seq<Step>)
    requires Inv(s) && s.phase.Returned? && Runs(s, more)
    ensures Inv(Exec(s, more)) && Exec(s, more).phase == s.phase && Exec(s, more).open == s.open
    decreases more
  {
    if more != [] {
      StaysReturned(Apply(s, more[0]), more[1..]);
    }
  }

  /** In every interleaving of the setup with the end of its context: a connection that was returned is open,
      answered 200, has no deadline, and stays so whatever the context and the interrupt's goroutine still do;
      and a setup that failed has closed its connection. */
  lemma SetupRaceSafe(https: bool, contextDone: bool, steps: seq<Step>, more: seq<Step>)
    requires Runs(Dialed(https, contextDone), steps)
    requires Runs(Exec(Dialed(https, contextDone), steps), more)
    ensures var s := Exec(Dialed(https, contextDone), steps);
            var t := Exec(s, more);
            && (s.phase == Returned(true) ==>
                  t.open && t.code == 200 && t.deadline.NoDeadline? && t.interrupt.Prevented?)
            && (s.phase == Returned(false) ==> !s.open && !t.open)
  {
    var s := Exec(Dialed(https, contextDone), steps);
    InvAlways(Dialed(https, contextDone), steps);
    if s.phase.Returned? {
      StaysReturned(s, more);
    }
  }

  /** If the context ends before the interrupt was stopped, the setup cannot succeed any more. */
  lemma {:induction false} EndedContextFails(s: State, steps: seq<Step>)
    requires Inv(s) && (s.interrupt.Started? || s.interrupt.Ran?) && Runs(s, steps)
    ensures Exec(s, steps).phase != Returned(true)
    decreases steps
  {
    if steps != [] {
      EndedContextFails(Apply(s, steps[0]), steps[1..]);
    }
  }

  /** The setup is still on its way to success: nothing failed, and the context did not end too early. */
  predicate OnTrack(s: State) {
    match s.phase
    case SetDeadline => !s.contextDone
    case Register => !s.contextDone
    case CheckStatus(code) => code == 200
    case Failing => false
    case Leaving(ok) => ok
    case Cancelling(ok) => ok
    case Returned(ok) => ok
    case ClearDeadline => true
    case _ => s.interrupt.Waiting?
  }

  function NextOnTrack(p: Phase): Step {
    match p
    case SetDeadline => DoSetDeadline(true)
    case Register => DoRegister
    case Handshake => DoHandshake(true)
    case SendRequest => DoSend(true)
    case ReadResponse => DoRead(Some(200))
    case StopInterrupt => DoStop
    case CheckStatus(_) => DoCheckStatus
    case ClearDeadline => DoClear(true)
    case Leaving(_) => DeferredStop
    case _ => DeferredCancel
  }

  function StepsLeft(p: Phase): nat {
    match p
    case SetDeadline => 11 case Register => 10 case Handshake => 9 case SendRequest => 8 case ReadResponse => 7
    case StopInterrupt => 6 case CheckStatus(_) => 5 case ClearDeadline => 4 case Leaving(_) => 3
    case Cancelling(_) => 2 case _ => 0
  }

  /** Conversely, from every state in which nothing went wrong yet the setup can be completed, except that a
      response with another code than 200 has been read. */
  lemma {:induction false} OnTrackCanSucceed(s: State) returns (steps: seq<Step>)
    requires OnTrack(s) && (s.phase.StopInterrupt? ==> s.code == 200)
    ensures Runs(s, steps) && Exec(s, steps).phase == Returned(true)
    decreases StepsLeft(s.phase)
  {
    if s.phase.Returned? {
      steps := [];
    } else {
      var step := NextOnTrack(s.phase);
      var rest := OnTrackCanSucceed(Apply(s, step));
      steps := [step] + rest;
    }
  }

  // ---------------------------------------------------------------- which steps were taken

  /** The steps of the setup itself, without the end of the context and the interrupt. */
  function OwnSteps(steps: seq<Step>): seq<Step> {
    if steps == [] then []
    else (if steps[0].ContextEnds? || steps[0].RunInterrupt? then [] else [steps[0]]) + OwnSteps(steps[1..])
  }

  /** What a successful setup does, in the order of the source: the TLS handshake comes for https upstreams only, and
      before anything is sent. */
  function Script(https: bool): seq<Step> {
    [DoSetDeadline(true), DoRegister]
    + (if https then [DoHandshake(true)] else [])
    + [DoSend(true), DoRead(Some(200)), DoStop, DoCheckStatus, DoClear(true), DeferredStop, DeferredCancel]
  }

  /** The phase before, and the step from there, when nothing went wrong; `code` is the one that was read. */
  function Previous(p: Phase, https: bool, code: int): (Phase, Step)
    requires Position(p) > 0
  {
    match p
    case Register => (SetDeadline, DoSetDeadline(true))
    case Handshake => (Register, DoRegister)
    case SendRequest => if https then (Handshake, DoHandshake(true)) else (Register, DoRegister)
    case ReadResponse => (SendRequest, DoSend(true))
    case StopInterrupt => (ReadResponse, DoRead(Some(code)))
    case CheckStatus(_) => (StopInterrupt, DoStop)
    case ClearDeadline => (CheckStatus(code), DoCheckStatus)
    case Leaving(_) => (ClearDeadline, DoClear(true))
    case Cancelling(_) => (Leaving(true), DeferredStop)
    case _ => (Cancelling(true), DeferredCancel)
  }

  /** How a setup gets to a phase when nothing went wrong. */
  function Way(p: Phase, https: bool, code: int): seq<Step>
    decreases Position(p)
  {
    if Position(p) == 0 then []
    else
      var (before, step) := Previous(p, https, code);
      Way(before, https, code) + [step]
  }

  function Position(p: Phase): nat {
    match p
    case SetDeadline => 0 case Register => 1 case Handshake => 2 case SendRequest => 3 case ReadResponse => 4
    case StopInterrupt => 5 case CheckStatus(_) => 6 case ClearDeadline => 7 case Leaving(_) => 8
    case Cancelling(_) => 9 case Returned(_) => 10 case _ => 0
  }

  /** What can go wrong where. A status code other than 200 shows only after the interrupt was stopped. */
  predicate GoesWrong(p: Phase, step: Step, code: int) {
    match p
    case SetDeadline => step == DoSetDeadline(false)
    case Handshake => step == DoHandshake(false)
    case SendRequest => step == DoSend(false)
    case ReadResponse => step == DoRead(None)
    case StopInterrupt => step == DoStop
    case CheckStatus(_) => step == DoCheckStatus && code != 200
    case ClearDeadline => step == DoClear(false)
    case _ => false
  }

  predicate Failed(p: Phase) {
    p.Failing? || ((p.Leaving? || p.Cancelling? || p.Returned?) && !p.ok)
  }

  /** What a setup that goes wrong does then. */
  function Cleanup(p: Phase): seq<Step> {
    match p
    case Leaving(_) => [DoClose]
    case Cancelling(_) => [DoClose, DeferredStop]
    case Returned(_) => [DoClose, DeferredStop, DeferredCancel]
    case _ => []
  }

  /** `own` goes the way to phase `at`, where `step` goes wrong, and then cleans up. */
  predicate FailsAt(own: seq<Step>, https: bool, code: int, at: Phase, step: Step, now: Phase) {
    GoesWrong(at, step, code) && (at.Handshake? ==> https) && own == Way(at, https, code) + [step] + Cleanup(now)
  }

  /** What `own` shows of a setup that stands at phase p and has read `code`. */
  ghost predicate GoesItsWay(p: Phase, https: bool, code: int, own: seq<Step>) {
    if Failed(p) then exists at, step :: FailsAt(own, https, code, at, step, p) else own == Way(p, https, code)
  }

  /** The phases know what they need to. */
  predicate PhaseOk(s: State) {
    && (s.phase.Handshake? ==> s.https)
    && (s.phase.CheckStatus? ==> s.phase.code == s.code)
    && (s.phase.ClearDeadline? || Succeeding(s.phase) ==> s.code == 200)
  }

  predicate IsOwn(step: Step) {
    !step.ContextEnds? && !step.RunInterrupt?
  }

  lemma {:induction false} OwnStepsAppend(steps: seq<Step>, step: Step)
    ensures OwnSteps(steps + [step]) == OwnSteps(steps) + (if IsOwn(step) then [step] else [])
  {
    if steps != [] {
      assert (steps + [step])[1..] == steps[1..] + [step];
      OwnStepsAppend(steps[1..], step);
    }
  }

  lemma FailingGoesOn(s: State, own: seq<Step>, step: Step)
    requires GoesItsWay(s.phase, s.https, s.code, own) && Enabled(s, step) && Failed(s.phase) && IsOwn(step)
    ensures GoesItsWay(Apply(s, step).phase, s.https, s.code, own + [step])
  {
    var at, bad :| FailsAt(own, s.https, s.code, at, bad, s.phase);
    var s1 := Apply(s, step);
    assert Cleanup(s1.phase) == Cleanup(s.phase) + [step];
    assert FailsAt(own + [step], s.https, s.code, at, bad, s1.phase);
  }

  /** A code that has not been read yet is not on the way. */
  lemma {:induction false} WayBeforeRead(p: Phase, https: bool, code: int, other: int)
    requires Position(p) <= 4
    ensures Way(p, https, code) == Way(p, https, other)
    decreases Position(p)
  {
    if Position(p) > 0 {
      WayBeforeRead(Previous(p, https, code).0, https, code, other);
    }
  }

  lemma StepKeepsPhaseOk(s: State, step: Step)
    requires PhaseOk(s) && Enabled(s, step)
    ensures PhaseOk(Apply(s, step)) && Apply(s, step).https == s.https
    ensures !IsOwn(step) ==> Apply(s, step).phase == s.phase
    ensures !step.DoRead? || Failed(Apply(s, step).phase) ==> Apply(s, step).code == s.code
  {
  }

  lemma StepGoesOn(s: State, step: Step)
    requires PhaseOk(s) && Enabled(s, step) && IsOwn(step) && !Failed(s.phase) && !Failed(Apply(s, step).phase)
    ensures Position(Apply(s, step).phase) > 0
    ensures Previous(Apply(s, step).phase, s.https, Apply(s, step).code) == (s.phase, step)
    ensures step.DoRead? ==> s.phase.ReadResponse?
  {
  }

  lemma WayGoesOn(s: State, step: Step)
    requires PhaseOk(s) && Enabled(s, step) && IsOwn(step) && !Failed(s.phase) && !Failed(Apply(s, step).phase)
    ensures Way(Apply(s, step).phase, s.https, Apply(s, step).code) == Way(s.phase, s.https, s.code) + [step]
  {
    var s1 := Apply(s, step);
    StepGoesOn(s, step);
    assert Way(s1.phase, s.https, s1.code) == Way(s.phase, s.https, s1.code) + [step];
    if step.DoRead? {
      WayBeforeRead(s.phase, s.https, s1.code, s.code);
    }
  }

  lemma SetupFails(s: State, own: seq<Step>, step: Step)
    requires PhaseOk(s) && Enabled(s, step) && IsOwn(step) && !Failed(s.phase) && Failed(Apply(s, step).phase)
    requires own == Way(s.phase, s.https, s.code)
    ensures GoesItsWay(Apply(s, step).phase, s.https, s.code, own + [step])
  {
    assert GoesWrong(s.phase, step, s.code);
    assert FailsAt(own + [step], s.https, s.code, s.phase, step, Apply(s, step).phase);
  }

  lemma StepGoesItsWay(s: State, own: seq<Step>, step: Step)
    requires PhaseOk(s) && GoesItsWay(s.phase, s.https, s.code, own) && Enabled(s, step) && IsOwn(step)
    ensures GoesItsWay(Apply(s, step).phase, s.https, Apply(s, step).code, own + [step])
  {
    StepKeepsPhaseOk(s, step);
    if Failed(s.phase) {
      FailingGoesOn(s, own, step);
    } else if Failed(Apply(s, step).phase) {
      SetupFails(s, own, step);
    } else {
      WayGoesOn(s, step);
    }
  }

  lemma {:induction false} RunGoesItsWay(s: State, done: seq<Step>, rest: seq<Step>)
    requires PhaseOk(s) && GoesItsWay(s.phase, s.https, s.code, OwnSteps(done)) && Runs(s, rest)
    ensures Exec(s, rest).https == s.https
    ensures GoesItsWay(Exec(s, rest).phase, s.https, Exec(s, rest).code, OwnSteps(done + rest))
    ensures PhaseOk(Exec(s, rest))
    decreases rest
  {
    if rest == [] {
      assert done + rest == done;
    } else {
      var step, s1 := rest[0], Apply(s, rest[0]);
      OwnStepsAppend(done, step);
      StepKeepsPhaseOk(s, step);
      if IsOwn(step) {
        StepGoesItsWay(s, OwnSteps(done), step);
      } else {
        assert OwnSteps(done + [step]) == OwnSteps(done);
      }
      RunGoesItsWay(s1, done + [step], rest[1..]);
      assert done + [step] + rest[1..] == done + rest;
    }
  }

  /** A setup that returns a connection has taken exactly the steps of the script, each once and in order; one that
      returns an error went that way up to a step that went wrong, and then closed the connection. */
  lemma SetupFollowsScript(https: bool, contextDone: bool, steps: seq<Step>)
    requires Runs(Dialed(https, contextDone), steps)
    ensures var s := Exec(Dialed(https, contextDone), steps);
            && (s.phase == Returned(true) ==> OwnSteps(steps) == Script(https))
            && (s.phase == Returned(false) ==>
                  exists at, step :: FailsAt(OwnSteps(steps), https, s.code, at, step, Returned(false)))
  {
    RunGoesItsWay(Dialed(https, contextDone), [], steps);
    assert [] + steps == steps;
    WayIsScript(https);
  }

  lemma WayToSend(https: bool)
    ensures Way(SendRequest, https, 200) ==
            [DoSetDeadline(true), DoRegister] + (if https then [DoHandshake(true)] else [])
  {
    assert Way(SetDeadline, https, 200) == [];
    assert Way(Register, https, 200) == [DoSetDeadline(true)];
    assert https ==> Way(Handshake, https, 200) == [DoSetDeadline(true), DoRegister];
  }

  lemma WayTo(p: Phase, https: bool, before: Phase, step: Step)
    requires Position(p) > 0 && Previous(p, https, 200) == (before, step)
    ensures Way(p, https, 200) == Way(before, https, 200) + [step]
  {
  }

  lemma OneByOne(way: seq<Step>, a: Step, b: Step, c: Step, d: Step)
    ensures way + [a] + [b] + [c] + [d] == way + [a, b, c, d]
  {
  }

  lemma WayToCode(https: bool)
    ensures Way(CheckStatus(200), https, 200) ==
            Way(SendRequest, https, 200) + [DoSend(true), DoRead(Some(200)), DoStop]
  {
    WayTo(ReadResponse, https, SendRequest, DoSend(true));
    WayTo(StopInterrupt, https, ReadResponse, DoRead(Some(200)));
    WayTo(CheckStatus(200), https, StopInterrupt, DoStop);
  }

  lemma WayFromCode(https: bool)
    ensures Way(Returned(true), https, 200) ==
            Way(CheckStatus(200), https, 200) + [DoCheckStatus, DoClear(true), DeferredStop, DeferredCancel]
  {
    WayTo(ClearDeadline, https, CheckStatus(200), DoCheckStatus);
    WayTo(Leaving(true), https, ClearDeadline, DoClear(true));
    WayTo(Cancelling(true), https, Leaving(true), DeferredStop);
    WayTo(Returned(true), https, Cancelling(true), DeferredCancel);
    OneByOne(Way(CheckStatus(200), https, 200), DoCheckStatus, DoClear(true), DeferredStop, DeferredCancel);
  }

  lemma WayIsScript(https: bool)
    ensures Way(Returned(true), https, 200) == Script(https)
  {
    WayToSend(https);
    WayToCode(https);
    WayFromCode(https);
  }

  // ---------------------------------------------------------------- the context and the deadline

  /** What the run's steps say about the context, the interrupt and the deadline. */
  predicate TimesOk(s: State, contextDone: bool, done: seq<Step>) {
    && (s.contextDone <==> contextDone || ContextEnds in done || DeferredCancel in done)
    && CountInterrupts(done) == (if s.interrupt.Ran? then 1 else 0)
    && (s.interrupt.Unset? || s.interrupt.Waiting? ==> CountInterrupts(done) == 0)
    && (s.interrupt.Waiting? ==> !s.contextDone)
    && (s.phase.SetDeadline? ==> s.deadline.NoDeadline?)
    && (1 <= Position(s.phase) <= 7 && !Failed(s.phase) ==> !s.deadline.NoDeadline?)
    && (s.interrupt.Ran? ==> s.deadline.Past?)
    && (s.phase.Returned? ==> s.contextDone)
  }

  function CountInterrupts(steps: seq<Step>): nat {
    if steps == [] then 0 else (if steps[0].RunInterrupt? then 1 else 0) + CountInterrupts(steps[1..])
  }

  lemma {:induction false} CountInterruptsAppend(steps: seq<Step>, step: Step)
    ensures CountInterrupts(steps + [step]) == CountInterrupts(steps) + (if step.RunInterrupt? then 1 else 0)
  {
    if steps != [] {
      assert (steps + [step])[1..] == steps[1..] + [step];
      CountInterruptsAppend(steps[1..], step);
    }
  }

  lemma StepKeepsTimes(s: State, contextDone: bool, done: seq<Step>, step: Step)
    requires Inv(s) && TimesOk(s, contextDone, done) && Enabled(s, step)
    ensures TimesOk(Apply(s, step), contextDone, done + [step])
  {
    CountInterruptsAppend(done, step);
  }

  lemma {:induction false} TimesAlways(s: State, contextDone: bool, done: seq<Step>, rest: seq<Step>)
    requires Inv(s) && TimesOk(s, contextDone, done) && Runs(s, rest)
    ensures TimesOk(Exec(s, rest), contextDone, done + rest)
    decreases rest
  {
    if rest == [] {
      assert done + rest == done;
    } else {
      StepKeepsTimes(s, contextDone, done, rest[0]);
      StepKeepsInv(s, rest[0]);
      TimesAlways(Apply(s, rest[0]), contextDone, done + [rest[0]], rest[1..]);
      assert done + [rest[0]] + rest[1..] == done + rest;
    }
  }

  /** From the handshake to the check of the status code the connection always has a deadline, which the interrupt moves
      into the past, at most once; and a setup that has returned has released its context. */
  lemma SetupHasDeadline(https: bool, contextDone: bool, steps: seq<Step>)
    requires Runs(Dialed(https, contextDone), steps)
    ensures TimesOk(Exec(Dialed(https, contextDone), steps), contextDone, steps)
  {
    TimesAlways(Dialed(https, contextDone), contextDone, [], steps);
    assert [] + steps == steps;
  }

  /** The context ended before the interrupt was stopped. */
  predicate EndedEarly(steps: seq<Step>, contextDone: bool) {
    contextDone || exists i, j :: 0 <= i < j < |steps| && steps[i].ContextEnds? && steps[j].DoStop?
  }

  lemma {:induction false} EndedEarlyFails(s: State, steps: seq<Step>)
    requires Inv(s) && (s.interrupt.Waiting? ==> !s.contextDone) && Runs(s, steps)
    requires s.interrupt.Unset? || s.interrupt.Waiting?
    requires s.phase.Leaving? || s.phase.Cancelling? || s.phase.Returned? ==> !s.phase.ok
    requires EndedEarly(steps, s.contextDone)
    ensures Exec(s, steps).phase != Returned(true)
    decreases steps
  {
    if steps != [] {
      var step, s1, rest := steps[0], Apply(s, steps[0]), steps[1..];
      StepKeepsInv(s, step);
      if s1.interrupt.Started? || s1.interrupt.Ran? {
        EndedContextFails(s1, rest);
      } else if Failed(s1.phase) {
        FailsForGood(s1, rest);
      } else {
        EndsEarlyLater(s, steps);
        EndedEarlyFails(s1, rest);
      }
    }
  }

  lemma EndsEarlyLater(s: State, steps: seq<Step>)
    requires Inv(s) && (s.interrupt.Waiting? ==> !s.contextDone) && Runs(s, steps) && steps != []
    requires s.interrupt.Unset? || s.interrupt.Waiting?
    requires s.phase.Leaving? || s.phase.Cancelling? || s.phase.Returned? ==> !s.phase.ok
    requires EndedEarly(steps, s.contextDone)
    requires var s1 := Apply(s, steps[0]); !s1.interrupt.Started? && !s1.interrupt.Ran? && !Failed(s1.phase)
    ensures var s1 := Apply(s, steps[0]);
            && EndedEarly(steps[1..], s1.contextDone) && (s1.interrupt.Waiting? ==> !s1.contextDone)
            && (s1.interrupt.Unset? || s1.interrupt.Waiting?)
  {
    var s1, rest := Apply(s, steps[0]), steps[1..];
    if !s.contextDone {
      var i, j :| 0 <= i < j < |steps| && steps[i].ContextEnds? && steps[j].DoStop?;
      if steps[0].DoStop? {
        StopsOnce(s1, rest, j - 1);
      } else if i > 0 {
        assert rest[i - 1].ContextEnds? && rest[j - 1].DoStop?;
      }
    }
  }

  lemma {:induction false} FailsForGood(s: State, steps: seq<Step>)
    requires Runs(s, steps) && Failed(s.phase)
    ensures Failed(Exec(s, steps).phase)
    decreases steps
  {
    if steps != [] {
      FailsForGood(Apply(s, steps[0]), steps[1..]);
    }
  }

  lemma {:induction false} StopsOnce(s: State, steps: seq<Step>, i: nat)
    requires Runs(s, steps) && (Position(s.phase) > 5 || Failed(s.phase)) && i < |steps|
    ensures !steps[i].DoStop?
    decreases steps
  {
    if i > 0 {
      StopsOnce(Apply(s, steps[0]), steps[1..], i - 1);
    }
  }

  /** A setup whose context is over before it starts, or ends before the interrupt is stopped, returns no connection. */
  lemma SetupNeedsItsContext(https: bool, contextDone: bool, steps: seq<Step>)
    requires Runs(Dialed(https, contextDone), steps) && EndedEarly(steps, contextDone)
    ensures Exec(Dialed(https, contextDone), steps).phase != Returned(true)
  {
    EndedEarlyFails(Dialed(https, contextDone), steps);
  }

  /** While the interrupt waits, the end of the context cuts whatever the setup is doing. */
  lemma ContextCutsIn(s: State)
    requires s.interrupt.Waiting?
    ensures Runs(s, [ContextEnds, RunInterrupt]) && Exec(s, [ContextEnds, RunInterrupt]).deadline.Past?
  {
    assert [ContextEnds, RunInterrupt][1..] == [RunInterrupt] && [RunInterrupt][1..] == [];
  }
}
