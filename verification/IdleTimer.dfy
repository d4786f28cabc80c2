/**
 The idle controller of internal/tunnel/tunnel.go: a timer whose callback can be waiting for the mutex
 while touch re-arms it or stop disarms it.

 Every locked region reads the clock once for its decision and once more when the timer is set; `lag` is
 the time that passes in between, at most `maxLag` in a run. With maxLag 0 a region is one instant.
 */
module IdleTimer {
  import opened Options

  /** The controller's fields: the last activity, the stopped flag and when the timer is due, if armed. */
  datatype Controller = Controller(lastTouch: int, stopped: bool, armed: Option<int>)

  function Touched(c: Controller, timeout: int, now: int, later: int): Controller {
    if c.stopped then c else Controller(now, false, Some(later + timeout))
  }

  function Stopped(c: Controller): Controller {
    if c.stopped then c else c.(stopped := true, armed := None)
  }

  /** The callback's locked region; the flag says that it decided to run onTimeout. */
  function Expired(c: Controller, timeout: int, now: int, later: int): (Controller, bool) {
    if c.stopped then (c, false)
    else if timeout - (now - c.lastTouch) > 0
    then (c.(armed := Some(later + (timeout - (now - c.lastTouch)))), false)
    else (c.(stopped := true), true)
  }

  // ---------------------------------------------------------------- every interleaving

  datatype Decision = Decision(at: int, lastTouch: int)

  /** `pending` callbacks were started by the timer and have not got the mutex yet. */
  datatype State = State(clock: int, ctl: Controller, pending: nat, decisions: seq<Decision>)

  datatype Step = Tick(to: int) | Fire | Touch(lag: nat) | Stop | Expire(lag: nat)

  datatype Config = Config(timeout: int, maxLag: nat)

  function Begin(g: Config, t: int, lag: nat): State {
    State(t + lag, Controller(t, false, Some(t + lag + g.timeout)), 0, [])
  }

  predicate Enabled(g: Config, s: State, step: Step) {
    match step
    case Tick(to) => s.clock <= to
    case Fire => s.ctl.armed.Some? && s.ctl.armed.value <= s.clock
    case Touch(lag) => lag <= g.maxLag
    case Stop => true
    case Expire(lag) => s.pending > 0 && lag <= g.maxLag
  }

  function Apply(g: Config, s: State, step: Step): State
    requires Enabled(g, s, step)
  {
    match step
    case Tick(to) => s.(clock := to)
    case Fire => s.(ctl := s.ctl.(armed := None), pending := s.pending + 1)
    case Touch(lag) => s.(clock := s.clock + lag, ctl := Touched(s.ctl, g.timeout, s.clock, s.clock + lag))
    case Stop => s.(ctl := Stopped(s.ctl))
    case Expire(lag) =>
      var (ctl, decided) := Expired(s.ctl, g.timeout, s.clock, s.clock + lag);
      s.(clock := s.clock + lag, ctl := ctl, pending := s.pending - 1,
         decisions := if decided then s.decisions + [Decision(s.clock, s.ctl.lastTouch)] else s.decisions)
  }

  predicate Runs(g: Config, s: State, steps: seq<Step>)
    decreases steps
  {
    steps == [] || (Enabled(g, s, steps[0]) && Runs(g, Apply(g, s, steps[0]), steps[1..]))
  }

  function Exec(g: Config, s: State, steps: seq<Step>): State
    requires Runs(g, s, steps)
    decreases steps
  {
    if steps == [] then s else Exec(g, Apply(g, s, steps[0]), steps[1..])
  }

  /** The timer is due when the timeout after the last touch is over, up to the lag. */
  predicate Due(g: Config, c: Controller) {
    c.armed.Some? && c.lastTouch + g.timeout <= c.armed.value <= c.lastTouch + g.timeout + g.maxLag
  }

  predicate Inv(g: Config, s: State) {
    && s.ctl.lastTouch <= s.clock
    && (!s.ctl.stopped ==> s.pending > 0 || s.ctl.armed.Some?)
    && (!s.ctl.stopped && s.ctl.armed.Some? ==> Due(g, s.ctl))
    && |s.decisions| <= 1
    && (s.decisions != [] ==> s.ctl.stopped && s.decisions[0].at >= s.decisions[0].lastTouch + g.timeout)
  }

  lemma {:induction false} InvAlways(g: Config, s: State, steps: seq<Step>)
    requires g.timeout > 0 && Inv(g, s) && Runs(g, s, steps)
    ensures Inv(g, Exec(g, s, steps))
    decreases steps
  {
    if steps != [] {
      InvAlways(g, Apply(g, s, steps[0]), steps[1..]);
    }
  }

  /** In every interleaving: at most one timeout is decided, and never before the timeout has passed since
      the last touch; while the controller runs, a callback is pending or the timer is due right after it. */
  lemma IdleTimeoutSound(g: Config, t: int, lag: nat, steps: seq<Step>)
    requires g.timeout > 0 && lag <= g.maxLag
    requires Runs(g, Begin(g, t, lag), steps)
    ensures var s := Exec(g, Begin(g, t, lag), steps);
            && |s.decisions| <= 1
            && (forall i :: 0 <= i < |s.decisions| ==> s.decisions[i].at >= s.decisions[i].lastTouch + g.timeout)
            && (!s.ctl.stopped ==> s.pending > 0 || Due(g, s.ctl))
            && (!s.ctl.stopped && g.maxLag == 0 && s.pending == 0 ==>
                  s.ctl.armed == Some(s.ctl.lastTouch + g.timeout))
  {
    InvAlways(g, Begin(g, t, lag), steps);
  }

  /** After stop has taken effect no interleaving decides a timeout, whatever callbacks are still pending. */
  lemma {:induction false} NoTimeoutAfterStop(g: Config, s: State, steps: seq<Step>)
    requires s.ctl.stopped && Runs(g, s, steps)
    ensures Exec(g, s, steps).ctl.stopped && Exec(g, s, steps).decisions == s.decisions
    decreases steps
  {
    if steps != [] {
      NoTimeoutAfterStop(g, Apply(g, s, steps[0]), steps[1..]);
    }
  }

  /** Expiry is never lost: in every reachable running state in which the tunnel has been idle for the
      timeout (and the lag), the timer or a waiting callback carries through to the decision. */
  lemma ExpiryNeverLost(g: Config, t: int, lag: nat, steps: seq<Step>)
    requires g.timeout > 0 && lag <= g.maxLag
    requires Runs(g, Begin(g, t, lag), steps)
    requires var s := Exec(g, Begin(g, t, lag), steps);
             !s.ctl.stopped && s.clock >= s.ctl.lastTouch + g.timeout + g.maxLag
    ensures var s := Exec(g, Begin(g, t, lag), steps);
            var more := if s.pending > 0 then [Expire(0)] else [Fire, Expire(0)];
            Runs(g, s, more) && Exec(g, s, more).decisions == [Decision(s.clock, s.ctl.lastTouch)]
  {
    var s := Exec(g, Begin(g, t, lag), steps);
    InvAlways(g, Begin(g, t, lag), steps);
    if s.pending == 0 {
      assert [Fire, Expire(0)][1..] == [Expire(0)] && [Expire(0)][1..] == [];
    }
  }

  // ---------------------------------------------------------------- the same, read off the steps alone

  /** The time after a step. */
  function TimeAfter(clock: int, step: Step): int {
    match step
    case Tick(to) => to
    case Touch(lag) => clock + lag
    case Expire(lag) => clock + lag
    case _ => clock
  }

  function TimeOf(clock: int, steps: seq<Step>): int
    decreases steps
  {
    if steps == [] then clock else TimeOf(TimeAfter(clock, steps[0]), steps[1..])
  }

  /** When the last touch among the steps happened, or `last` if there is none. */
  function LastTouchOf(last: int, clock: int, steps: seq<Step>): int
    decreases steps
  {
    if steps == [] then last
    else LastTouchOf(if steps[0].Touch? then clock else last, TimeAfter(clock, steps[0]), steps[1..])
  }

  /** The controller's record of the last activity is true as long as it runs. */
  lemma {:induction false} LastTouchIsTrue(g: Config, s: State, steps: seq<Step>)
    requires Runs(g, s, steps)
    ensures Exec(g, s, steps).clock == TimeOf(s.clock, steps)
    ensures !Exec(g, s, steps).ctl.stopped ==>
              !s.ctl.stopped && Exec(g, s, steps).ctl.lastTouch == LastTouchOf(s.ctl.lastTouch, s.clock, steps)
    decreases steps
  {
    if steps != [] {
      LastTouchIsTrue(g, Apply(g, s, steps[0]), steps[1..]);
    }
  }

  /** Once activity was noted at time `at`, no timeout is decided before `at + timeout`. */
  lemma {:induction false} NotBefore(g: Config, s: State, steps: seq<Step>, at: int)
    requires Runs(g, s, steps) && s.ctl.lastTouch >= at && s.clock >= at && s.decisions == []
    ensures forall i :: 0 <= i < |Exec(g, s, steps).decisions| ==> Exec(g, s, steps).decisions[i].at >= at + g.timeout
    decreases steps
  {
    if steps != [] {
      var s1 := Apply(g, s, steps[0]);
      if s1.decisions == [] {
        NotBefore(g, s1, steps[1..], at);
      } else {
        NoTimeoutAfterStop(g, s1, steps[1..]);
      }
    }
  }

  lemma {:induction false} ExecSplit(g: Config, s: State, steps: seq<Step>, i: nat)
    requires Runs(g, s, steps) && i <= |steps|
    ensures Runs(g, s, steps[..i]) && Runs(g, Exec(g, s, steps[..i]), steps[i..])
    ensures Exec(g, Exec(g, s, steps[..i]), steps[i..]) == Exec(g, s, steps)
    decreases i
  {
    if i == 0 {
      assert steps[..0] == [] && steps[0..] == steps;
    } else {
      assert steps[..i][1..] == steps[1..][..i - 1] && steps[1..][i - 1..] == steps[i..];
      ExecSplit(g, Apply(g, s, steps[0]), steps[1..], i - 1);
    }
  }

  /** Activity at any step of a run puts off the timeout: it is decided, if ever, a whole timeout after that step,
      unless the controller was stopped before. While the controller runs, the timer is due, or a callback is
      pending, for the last of these steps. */
  lemma TouchPutsOffTimeout(g: Config, t: int, lag: nat, steps: seq<Step>, i: nat)
    requires g.timeout > 0 && lag <= g.maxLag
    requires Runs(g, Begin(g, t, lag), steps) && i < |steps| && steps[i].Touch?
    ensures Runs(g, Begin(g, t, lag), steps[..i])
    ensures var before, s := Exec(g, Begin(g, t, lag), steps[..i]), Exec(g, Begin(g, t, lag), steps);
            && (before.ctl.stopped ==> s.decisions == before.decisions)
            && (!before.ctl.stopped ==> forall j :: 0 <= j < |s.decisions| ==>
                  s.decisions[j].at >= TimeOf(t + lag, steps[..i]) + g.timeout)
  {
    ExecSplit(g, Begin(g, t, lag), steps, i);
    var before := Exec(g, Begin(g, t, lag), steps[..i]);
    InvAlways(g, Begin(g, t, lag), steps[..i]);
    LastTouchIsTrue(g, Begin(g, t, lag), steps[..i]);
    if before.ctl.stopped {
      NoTimeoutAfterStop(g, before, steps[i..]);
    } else {
      assert steps[i..][0] == steps[i];
      NotBefore(g, Apply(g, before, steps[i]), steps[i..][1..], before.clock);
    }
  }

  /** In terms of the steps: while the controller runs, the timer is armed for the last touch plus the timeout (up to
      the lag), or a callback is pending; and every decision comes a whole timeout after the start. */
  lemma TimerFollowsTouches(g: Config, t: int, lag: nat, steps: seq<Step>)
    requires g.timeout > 0 && lag <= g.maxLag
    requires Runs(g, Begin(g, t, lag), steps)
    ensures var s := Exec(g, Begin(g, t, lag), steps);
            var last := LastTouchOf(t, t + lag, steps);
            && s.clock == TimeOf(t + lag, steps)
            && (forall j :: 0 <= j < |s.decisions| ==> t + g.timeout <= s.decisions[j].at <= s.clock)
            && (!s.ctl.stopped && s.pending == 0 ==>
                  s.ctl.armed.Some? && last + g.timeout <= s.ctl.armed.value <= last + g.timeout + g.maxLag)
  {
    InvAlways(g, Begin(g, t, lag), steps);
    LastTouchIsTrue(g, Begin(g, t, lag), steps);
    NotBefore(g, Begin(g, t, lag), steps, t);
    DecisionsInPast(g, Begin(g, t, lag), steps);
  }

  lemma {:induction false} DecisionsInPast(g: Config, s: State, steps: seq<Step>)
    requires Runs(g, s, steps)
    requires forall j :: 0 <= j < |s.decisions| ==> s.decisions[j].at <= s.clock
    ensures forall j :: 0 <= j < |Exec(g, s, steps).decisions| ==>
              Exec(g, s, steps).decisions[j].at <= Exec(g, s, steps).clock
    decreases steps
  {
    if steps != [] {
      DecisionsInPast(g, Apply(g, s, steps[0]), steps[1..]);
    }
  }

  function CountFires(steps: seq<Step>): nat {
    if steps == [] then 0 else (if steps[0].Fire? then 1 else 0) + CountFires(steps[1..])
  }

  function CountExpires(steps: seq<Step>): nat {
    if steps == [] then 0 else (if steps[0].Expire? then 1 else 0) + CountExpires(steps[1..])
  }

  lemma {:induction false} StopsOfRun(g: Config, s: State, steps: seq<Step>)
    requires Runs(g, s, steps)
    requires s.ctl.stopped ==> s.decisions != [] || s.ctl.armed.None?
    requires s.decisions != [] ==> s.ctl.stopped
    ensures var t := Exec(g, s, steps);
            && (t.ctl.stopped <==> s.ctl.stopped || Stop in steps || t.decisions != [])
            && (t.ctl.stopped && t.decisions == [] ==> t.ctl.armed.None?)
            && t.pending == s.pending + CountFires(steps) - CountExpires(steps)
    decreases steps
  {
    if steps != [] {
      var s1, rest := Apply(g, s, steps[0]), steps[1..];
      StopsOfRun(g, s1, rest);
      if s1.ctl.stopped {
        NoTimeoutAfterStop(g, s1, rest);
      }
      assert Stop in steps <==> steps[0] == Stop || Stop in rest;
    }
  }

  /** The controller runs until stop is called or a timeout is decided, and no longer; a stop disarms the timer; and
      each time the timer fires one callback waits for the mutex until it runs. */
  lemma RunsUntilStopped(g: Config, t: int, lag: nat, steps: seq<Step>)
    requires Runs(g, Begin(g, t, lag), steps)
    ensures var s := Exec(g, Begin(g, t, lag), steps);
            && (s.ctl.stopped <==> Stop in steps || s.decisions != [])
            && (s.ctl.stopped && s.decisions == [] ==> s.ctl.armed.None?)
            && s.pending == CountFires(steps) - CountExpires(steps)
            && Enabled(g, s, Stop)
  {
    StopsOfRun(g, Begin(g, t, lag), steps);
  }

  // ---------------------------------------------------------------- the imperative controller

  class IdleController {
    const timeout: int
    var lastTouch: int
    var stopped: bool
    var armed: Option<int>

    ghost function View(): Controller
      reads this
    {
      Controller(lastTouch, stopped, armed)
    }

    constructor (timeout: int, now: int, later: int)
      ensures this.timeout == timeout && View() == Controller(now, false, Some(later + timeout))
    {
      this.timeout := timeout;
      lastTouch := now;
      stopped := false;
      armed := Some(later + timeout);
    }

    method Touch(now: int, later: int)
      modifies this
      ensures View() == Touched(old(View()), timeout, now, later)
    {
      if !stopped {
        lastTouch := now;
        armed := Some(later + timeout);
      }
    }

    method Stop()
      modifies this
      ensures View() == Stopped(old(View()))
    {
      if !stopped {
        stopped := true;
        armed := None;
      }
    }

    method Expire(now: int, later: int) returns (onTimeout: bool)
      modifies this
      ensures (View(), onTimeout) == Expired(old(View()), timeout, now, later)
    {
      if stopped {
        return false;
      }
      var remaining := timeout - (now - lastTouch);
      if remaining > 0 {
        armed := Some(later + remaining);
        return false;
      }
      stopped := true;
      return true;
    }
  }
}
