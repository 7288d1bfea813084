/** What the state names of run control come to, spelled out: which requests each state accepts, where each
    transition ends, and what an interrupted one goes back to. */
module RunStates {
  import opened RunControl

  // ----- what is accepted

  // Under the empty name everything is.
  predicate MayAsk(state: DaqState, r: Request) {
    match state
    case Stopped => r == Booting
    case Booted => r == Configuring || r == Terminating
    case Ready => r == Starting || r == Shutting || r == Terminating
    case Running => r == Stopping || r == Pausing
    case Paused => r == Resuming
    case Nameless => true
    case ReadyOrBooted => r == Terminating
    case Doing(_) => false
    case DoingRecover => false
  }

  // A request sets the state name and the flag exactly if the state accepts it, and else nothing.
  lemma AcceptedExactly(a: Alphabet, c: Control, r: Request)
    requires Enabled(a, c, Ask(r))
    ensures Apply(a, c, Ask(r)) == if MayAsk(c.state, r) then c.(state := Doing(r), flags := c.flags + {r}) else c
  {
    match r
    case Booting => case Shutting => case Configuring => case Starting =>
    case Stopping => case Terminating => case Pausing => case Resuming =>
  }

  // In a benign run that is doing nothing, either a transition is queued or a recovery is asked for, and then
  // no request is accepted, or the state is one of five.
  lemma IdleStates(a: Alphabet, c: Control)
    requires Benign(a) && Reachable(a, c) && c.activity == Idle
    ensures || c.state == DoingRecover || (c.state.Doing? && c.state.r in c.flags)
            || (c.flags == {} && c.state in {Stopped, Booted, Ready, Running, Paused})
  {
    var steps :| Leads(a, steps, c);
    RunsKeepPending(a, steps, c);
  }

  // While nothing is carried out, the state names what is queued.
  ghost predicate Pending(c: Control) {
    Inv(c) && (c.activity == Idle && c.state.Doing? ==> c.state.r in c.flags)
  }

  lemma {:induction false} RunsKeepPending(a: Alphabet, steps: seq<Step>, c: Control)
    requires Benign(a) && Leads(a, steps, c)
    ensures Pending(c)
    decreases |steps|
  {
    if steps != [] {
      var init, last := steps[..|steps| - 1], steps[|steps| - 1];
      var b :| Leads(a, init, b) && Enabled(a, b, last) && c == Apply(a, b, last);
      RunsKeepPending(a, init, b);
      StepKeepsInv(a, b, last);
      StepKeepsPending(a, b, last);
    }
  }

  lemma StepKeepsPending(a: Alphabet, c: Control, step: Step)
    requires Benign(a) && Pending(c) && Enabled(a, c, step)
    ensures var d := Apply(a, c, step); d.activity == Idle && d.state.Doing? ==> d.state.r in d.flags
  {
    if step.Tick? { EveryRequestIsOrdered(); }
  }

  // The processes are looked after when nothing is to be picked up, they are managed, and the state is none
  // of three names.
  lemma ChecksExactly(a: Alphabet, c: Control)
    ensures Enabled(a, c, Tick(true)) <==>
      && c.activity == Idle && !c.exception && !c.recover && c.flags == {}
      && a.managed && c.state !in {Stopped, Doing(Booting), Doing(Terminating)}
  {
    EveryRequestIsOrdered();
    if c.flags != {} {
      var r :| r in c.flags;
      assert r in BEFORE_RECOVER || r in AFTER_RECOVER;
    }
  }

  // ----- where transitions end

  ghost predicate AtRest(a: Alphabet, c: Control) {
    Reachable(a, c) && c.activity == Idle && c.flags == {} && !c.recover && !c.exception
  }

  // A run can be started and stopped, and started again.
  lemma StartAndStop(a: Alphabet, c: Control) returns (started: Control, stopped: Control)
    requires AtRest(a, c) && c.state == Ready
    ensures AtRest(a, started) && started == c.(state := Running, last := Running)
    ensures AtRest(a, stopped) && stopped == c.(state := Ready, last := Ready)
    ensures Apply(a, stopped, Ask(Starting)).flags == {Starting}
  {
    started := Carry(a, c, Starting);
    stopped := Carry(a, started, Stopping);
    AcceptedExactly(a, stopped, Starting);
  }

  // It can be paused and resumed, and stopped then.
  lemma PauseAndResume(a: Alphabet, c: Control) returns (paused: Control, resumed: Control)
    requires AtRest(a, c) && c.state == Running
    ensures AtRest(a, paused) && paused == c.(state := Paused, last := Paused)
    ensures AtRest(a, resumed) && resumed == c.(state := Running, last := Running)
    ensures Apply(a, resumed, Ask(Stopping)).flags == {Stopping}
  {
    paused := Carry(a, c, Pausing);
    resumed := Carry(a, paused, Resuming);
    AcceptedExactly(a, resumed, Stopping);
  }

  // From "ready" and "booted" it can be terminated, and booted again.
  lemma TerminateAndBoot(a: Alphabet, c: Control) returns (ended: Control)
    requires AtRest(a, c) && (c.state == Ready || c.state == Booted)
    ensures AtRest(a, ended) && ended == c.(state := Stopped, last := Stopped)
    ensures Apply(a, ended, Ask(Booting)).flags == {Booting}
  {
    ended := Carry(a, c, Terminating);
    AcceptedExactly(a, ended, Booting);
  }

  // The runner's Shutdown ends without a name, and from "booted" a configuration ends in "ready".
  lemma ConfigureAndShutDown(a: Alphabet, c: Control) returns (ready: Control, shut: Control)
    requires AtRest(a, c) && c.state == Booted && a.shutdown
    ensures AtRest(a, ready) && ready == c.(state := Ready, last := Ready)
    ensures AtRest(a, shut) && shut == c.(state := Nameless, last := Nameless)
  {
    ready := Carry(a, c, Configuring);
    shut := Carry(a, ready, Shutting);
  }

  // One transition of the object, from the request to its end.
  method CarryOut(daq: DaqInterface, r: Request)
    requires daq.activity == Idle && daq.flags == {} && !daq.doRecover && !daq.exception
    requires MayAsk(daq.state, r) && (r == Shutting ==> daq.a.shutdown)
    modifies daq
    ensures daq.activity == Idle && daq.flags == {} && !daq.doRecover && !daq.exception
    ensures r == Booting ==> daq.state == Booted
    ensures r == Configuring || r == Stopping ==> daq.state == Ready
    ensures r == Starting || r == Resuming ==> daq.state == Running
    ensures r == Pausing ==> daq.state == Paused
    ensures r == Terminating ==> daq.state == Stopped
    ensures r == Shutting ==> daq.state == Nameless
  {
    AcceptedExactly(daq.a, daq.View(), r);
    daq.StateChange(r);
    PickOnly(daq.View(), r);
    daq.Runner(false);
    if r == Booting {
      daq.ResetForBoot();
      if daq.a.managed {
        daq.LaunchProcs();
      }
    }
    daq.CompleteStateChange();
  }

  // The states the object names after each transition of an ordinary day.
  method Day(a: Alphabet) returns (states: seq<DaqState>)
    ensures states ==
      [Stopped, Booted, Ready, Running, Paused, Running, Ready, Running, Ready, Stopped, Booted, Stopped]
  {
    var daq := new DaqInterface(a);
    states := [daq.state];
    var requests := [Booting, Configuring, Starting, Pausing, Resuming, Stopping, Starting, Stopping, Terminating,
                     Booting, Terminating];
    for i := 0 to |requests|
      invariant fresh(daq) && daq.activity == Idle && daq.flags == {} && !daq.doRecover && !daq.exception
      invariant |states| == i + 1 && daq.state == states[i] && states == DAY[..i + 1]
    {
      CarryOut(daq, requests[i]);
      states := states + [daq.state];
      assert DAY[..i + 2] == DAY[..i + 1] + [DAY[i + 1]];
    }
  }

  const DAY := [Stopped, Booted, Ready, Running, Paused, Running, Ready, Running, Ready, Stopped, Booted, Stopped]

  // ----- what an interrupted transition goes back to

  // The request can be made again, and the state is not the nameless one.
  lemma RevertedCanBeAskedAgain(a: Alphabet, c: Control, reset: bool)
    requires Enabled(a, c, Revert(reset)) && c.state.Doing?
    ensures var d := Apply(a, c, Revert(reset));
            && d.activity == Idle && MayAsk(d.state, c.state.r) && d.state != Nameless
            && (c.state.r == Terminating ==> d.state == ReadyOrBooted)
  {
  }

  // In a benign run it is the state the transition started from.
  lemma RevertsToTheStart(a: Alphabet, c: Control, reset: bool)
    requires Benign(a) && Reachable(a, c) && Enabled(a, c, Revert(reset)) && c.state.Doing?
    ensures Apply(a, c, Revert(reset)).state == c.last == if c.activity.r == Booting then Stopped else Booted
  {
    var steps :| Leads(a, steps, c);
    RunControl.RunsKeepInv(a, steps, c);
  }
}
