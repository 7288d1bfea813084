/** Run control as interleaved steps of two threads: requests arrive over RPC and only set a state
    name and a flag; the runner picks up flags in a fixed order and carries transitions out. */
module RunControl {
  import opened Wrappers

  // The guarded transitions.  A recover request is not guarded.
  datatype Request = Booting | Shutting | Stopping | Configuring | Starting | Pausing | Resuming | Terminating

  // `Nameless` is the empty state name, and `ReadyOrBooted` the name "ready|booted".
  datatype DaqState = Stopped | Booted | Ready | Running | Paused
                    | Doing(r: Request) | DoingRecover | Nameless | ReadyOrBooted

  // dict_state_to, except that the Shutdown sent by the runner completes under an empty name.
  function To(r: Request): DaqState {
    match r
    case Booting => Booted
    case Shutting => Nameless
    case Stopping => Ready
    case Configuring => Ready
    case Starting => Running
    case Pausing => Paused
    case Resuming => Running
    case Terminating => Stopped
  }

  // dict_state_from: the states a transition may start from.
  function From(r: Request): set<DaqState> {
    match r
    case Booting => {Stopped}
    case Shutting => {Ready}
    case Stopping => {Running}
    case Configuring => {Booted}
    case Starting => {Ready}
    case Pausing => {Running}
    case Resuming => {Paused}
    case Terminating => {Ready, Booted}
  }

  // The guard tests for a substring, which every name holds of itself and the empty name of all.
  predicate Accepts(state: DaqState, r: Request) {
    state in From(r) || state == Nameless || (state == ReadyOrBooted && r == Terminating)
  }

  // The state an interrupted transition falls back to, by the name it is in.
  function FallBack(state: DaqState): DaqState {
    match state
    case Doing(Booting) => Stopped
    case Doing(Shutting) => Ready
    case Doing(Stopping) => Running
    case Doing(Configuring) => Booted
    case Doing(Starting) => Ready
    case Doing(Pausing) => Running
    case Doing(Resuming) => Paused
    case Doing(Terminating) => ReadyOrBooted
    case _ => state
  }

  // How far a boot has got: before the variables are reset, after it, after launching.
  datatype Stage = Entered | Reset | Launched

  // What the runner thread is at.  A recovery may be a no-op; it may have to hand back to the
  // handler that called it; and one started for an exception clears the exception at its end.
  datatype Activity =
    | Idle
    | Handling(r: Request, stage: Stage)
    | Recovering(noop: bool, resume: Option<Request>, clears: bool)

  // `last` is the state the last completed transition led to.
  datatype Control = Control(state: DaqState, flags: set<Request>, recover: bool, exception: bool, launched: bool,
                             activity: Activity, last: DaqState)

  const INITIAL := Control(Stopped, {}, false, false, false, Idle, Stopped)

  // ----- steps

  // What a run may contain.
  datatype Alphabet = Alphabet(
    managed: bool,          // "manage processes"
    recoveryDisabled: bool, // "disable recovery"
    shutdown: bool,         // shutdown may be requested
    carryOn: bool,          // a handler may go on after recovering midway
    noopRace: bool)         // transitions may be requested while a no-op recovery runs

  datatype Step =
    | Ask(r: Request)
    | AskRecover
    | Tick(checkFails: bool)
    | ResetVariables
    | LaunchProcesses
    | Complete
    | Revert(reset: bool)
    | Fail(escapes: bool, raised: bool)
    | RecoverMidway
    | FinishRecovery

  // The runner's order of looking at the flags.
  const BEFORE_RECOVER: seq<Request> := [Booting, Shutting, Configuring]
  const AFTER_RECOVER: seq<Request> := [Starting, Stopping, Terminating, Pausing, Resuming]

  function FirstOf(order: seq<Request>, flags: set<Request>): (r: Option<Request>)
    ensures r.Some? ==> r.value in order && r.value in flags
    ensures r.None? ==> forall x :: x in order ==> x !in flags
  {
    if order == [] then None
    else if order[0] in flags then Some(order[0])
    else FirstOf(order[1..], flags)
  }

  datatype Pick = PickTransition(r: Request) | PickRecover | PickException | PickNothing

  function NextPick(c: Control): Pick {
    if c.exception then PickException
    else if FirstOf(BEFORE_RECOVER, c.flags).Some? then PickTransition(FirstOf(BEFORE_RECOVER, c.flags).value)
    else if c.recover then PickRecover
    else if FirstOf(AFTER_RECOVER, c.flags).Some? then PickTransition(FirstOf(AFTER_RECOVER, c.flags).value)
    else PickNothing
  }

  // The state in which the periodic checks of the processes run.
  predicate Watched(a: Alphabet, state: DaqState) {
    a.managed && state != Stopped && state != Doing(Booting) && state != Doing(Terminating)
  }

  predicate RecoversFor(a: Alphabet, c: Control) {
    !a.recoveryDisabled && c.launched
  }

  function StartRecovery(a: Alphabet, c: Control, resume: Option<Request>, clears: bool): Control {
    c.(activity := Recovering(!RecoversFor(a, c), resume, clears))
  }

  predicate Enabled(a: Alphabet, c: Control, step: Step) {
    match step
    case Ask(r) => (r == Shutting ==> a.shutdown) && (c.activity.Recovering? && c.activity.noop ==> a.noopRace)
    case AskRecover => true
    case Tick(fails) => c.activity == Idle && (fails ==> NextPick(c) == PickNothing && Watched(a, c.state))
    case ResetVariables => c.activity == Handling(Booting, Entered)
    case LaunchProcesses => c.activity == Handling(Booting, Reset) && a.managed
    case Complete => c.activity.Handling? &&
      (c.activity.r == Booting ==> c.activity.stage == Launched || (!a.managed && c.activity.stage == Reset))
    case Revert(reset) => c.activity.Handling? && (c.activity.r == Booting || (c.activity.r == Configuring && !reset))
    case Fail(_, raised) => c.activity.Handling? && (raised ==> c.activity.r != Booting)
    case RecoverMidway => a.carryOn && c.activity.Handling? && c.activity.r in {Configuring, Starting, Stopping}
    case FinishRecovery => c.activity.Recovering?
  }

  function Apply(a: Alphabet, c: Control, step: Step): Control
    requires Enabled(a, c, step)
  {
    match step
    case Ask(r) =>
      if Accepts(c.state, r) then c.(state := Doing(r), flags := c.flags + {r}) else c
    case AskRecover =>
      c.(state := DoingRecover, recover := true)
    case Tick(fails) =>
      (match NextPick(c)
       case PickException => StartRecovery(a, c, None, true)
       case PickTransition(r) => c.(flags := c.flags - {r}, activity := Handling(r, Entered))
       case PickRecover => StartRecovery(a, c.(recover := false), None, false)
       case PickNothing => if fails then StartRecovery(a, c, None, true) else c)
    case ResetVariables =>
      c.(launched := false, exception := false, activity := Handling(Booting, Reset))
    case LaunchProcesses =>
      c.(launched := true, activity := Handling(Booting, Launched))
    case Complete =>
      c.(state := To(c.activity.r), last := To(c.activity.r), activity := Idle)
    case Revert(reset) =>
      var d := c.(state := FallBack(c.state), activity := Idle);
      if reset then d.(launched := false, exception := false) else d
    case Fail(escapes, raised) =>
      StartRecovery(a, c.(exception := c.exception || raised), None, escapes)
    case RecoverMidway =>
      StartRecovery(a, c, Some(c.activity.r), false)
    case FinishRecovery =>
      var d := c.(state := Stopped, last := Stopped, exception := c.exception && !c.activity.clears,
                  activity := if c.activity.resume.Some? then Handling(c.activity.resume.value, Entered) else Idle);
      if c.activity.noop then d else d.(flags := {}, recover := false)
  }

  ghost predicate Leads(a: Alphabet, steps: seq<Step>, c: Control)
    decreases |steps|
  {
    if steps == [] then c == INITIAL
    else
      var init, last := steps[..|steps| - 1], steps[|steps| - 1];
      exists b :: Leads(a, init, b) && Enabled(a, b, last) && c == Apply(a, b, last)
  }

  ghost predicate Reachable(a: Alphabet, c: Control) {
    exists steps :: Leads(a, steps, c)
  }

  // ----- the guarantee

  // At most one guarded transition is queued or under way.
  ghost predicate AtMostOnePending(c: Control) {
    && (forall p, q :: p in c.flags && q in c.flags ==> p == q)
    && (c.activity.Handling? ==> c.flags == {})
  }

  // A handler starts only from a state its transition may start from; and when a recovery is over,
  // no transition is left in the queue.
  ghost predicate Proper(a: Alphabet, c: Control, step: Step)
    requires Enabled(a, c, step)
  {
    && (step.Tick? && NextPick(c).PickTransition? ==> c.last in From(NextPick(c).r))
    && (step.FinishRecovery? ==> Apply(a, c, step).flags == {} && Apply(a, c, step).state == Stopped)
    && AtMostOnePending(Apply(a, c, step))
  }

  // Every step of every run is proper.
  ghost predicate Guaranteed(a: Alphabet) {
    forall c, step :: Reachable(a, c) && Enabled(a, c, step) ==> Proper(a, c, step)
  }

  predicate Recoverable(a: Alphabet) {
    a.managed && !a.recoveryDisabled
  }

  // ----- the guarantee holds when nothing on the list below happens

  predicate Steady(s: DaqState) {
    s == Stopped || s == Booted || s == Ready || s == Running || s == Paused
  }

  ghost predicate Inv(c: Control) {
    && Steady(c.last)
    && (c.last != Stopped ==> c.launched)
    && (c.exception ==> c.launched && !c.activity.Handling?)
    && AtMostOnePending(c)
    && (forall r :: r in c.flags ==> c.last in From(r) && (c.state == Doing(r) || c.state == DoingRecover))
    && (Steady(c.state) || c.state == DoingRecover || c.state.Doing?)
    && (Steady(c.state) ==> c.state == c.last && c.flags == {})
    && (c.activity.Handling? ==>
          && c.last in From(c.activity.r)
          && (c.state == Doing(c.activity.r) || c.state == DoingRecover)
          && (c.activity.stage == Launched ==> c.launched))
    && (c.activity.Recovering? ==>
          && c.activity.resume.None?
          && (c.activity.noop ==> !c.launched && c.flags == {}))
    && Shutting !in c.flags && !(c.activity.Handling? && c.activity.r == Shutting)
  }

  predicate Benign(a: Alphabet) {
    Recoverable(a) && !a.shutdown && !a.carryOn && !a.noopRace
  }

  lemma StepKeepsInv(a: Alphabet, c: Control, step: Step)
    requires Benign(a) && Inv(c) && Enabled(a, c, step)
    ensures Inv(Apply(a, c, step)) && Proper(a, c, step)
  {
    match step
    case Ask(_) | AskRecover => AskKeepsInv(a, c, step);
    case Tick(_) => TickKeepsInv(a, c, step);
    case FinishRecovery | RecoverMidway | Fail(_, _) => RecoveryKeepsInv(a, c, step);
    case _ => HandlerKeepsInv(a, c, step);
  }

  lemma AskKeepsInv(a: Alphabet, c: Control, step: Step)
    requires Benign(a) && Inv(c) && Enabled(a, c, step) && (step.Ask? || step.AskRecover?)
    ensures Inv(Apply(a, c, step)) && Proper(a, c, step)
  {
  }

  lemma TickKeepsInv(a: Alphabet, c: Control, step: Step)
    requires Benign(a) && Inv(c) && Enabled(a, c, step) && step.Tick?
    ensures Inv(Apply(a, c, step)) && Proper(a, c, step)
  {
    EveryRequestIsOrdered();
  }

  lemma RecoveryKeepsInv(a: Alphabet, c: Control, step: Step)
    requires Benign(a) && Inv(c) && Enabled(a, c, step) && (step.FinishRecovery? || step.RecoverMidway? || step.Fail?)
    ensures Inv(Apply(a, c, step)) && Proper(a, c, step)
  {
  }

  lemma HandlerKeepsInv(a: Alphabet, c: Control, step: Step)
    requires Benign(a) && Inv(c) && Enabled(a, c, step)
    requires step.ResetVariables? || step.LaunchProcesses? || step.Complete? || step.Revert?
    ensures Inv(Apply(a, c, step)) && Proper(a, c, step)
  {
  }

  lemma EveryRequestIsOrdered()
    ensures forall r: Request :: r in BEFORE_RECOVER || r in AFTER_RECOVER
  {
    assert BEFORE_RECOVER[0] == Booting && BEFORE_RECOVER[1] == Shutting && BEFORE_RECOVER[2] == Configuring;
    assert AFTER_RECOVER[0] == Starting && AFTER_RECOVER[1] == Stopping && AFTER_RECOVER[2] == Terminating;
    assert AFTER_RECOVER[3] == Pausing && AFTER_RECOVER[4] == Resuming;
    forall r: Request ensures r in BEFORE_RECOVER || r in AFTER_RECOVER {
      match r
      case Booting => case Shutting => case Configuring => case Starting =>
      case Stopping => case Terminating => case Pausing => case Resuming =>
    }
  }

  lemma {:induction false} RunsKeepInv(a: Alphabet, steps: seq<Step>, c: Control)
    requires Benign(a) && Leads(a, steps, c)
    ensures Inv(c)
    decreases |steps|
  {
    if steps != [] {
      var init, last := steps[..|steps| - 1], steps[|steps| - 1];
      var b :| Leads(a, init, b) && Enabled(a, b, last) && c == Apply(a, b, last);
      RunsKeepInv(a, init, b);
      StepKeepsInv(a, b, last);
    }
  }

  // ----- and fails otherwise: one run for each cause

  lemma Go(a: Alphabet, c: Control, step: Step) returns (d: Control)
    requires Reachable(a, c) && Enabled(a, c, step)
    ensures Reachable(a, d) && d == Apply(a, c, step)
  {
    var steps :| Leads(a, steps, c);
    d := Apply(a, c, step);
    var longer := steps + [step];
    assert longer[..|longer| - 1] == steps;
    assert Leads(a, longer, d);
  }

  lemma Improper(a: Alphabet, c: Control, step: Step)
    requires Reachable(a, c) && Enabled(a, c, step) && !Proper(a, c, step)
    ensures !Guaranteed(a)
  {
  }

  lemma Begin(a: Alphabet)
    ensures Reachable(a, INITIAL)
  {
    assert Leads(a, [], INITIAL);
  }

  // Request, pick up and complete a transition while nothing else is going on.
  lemma Carry(a: Alphabet, c: Control, r: Request) returns (d: Control)
    requires Reachable(a, c) && c.activity == Idle && c.flags == {} && !c.recover && !c.exception
    requires c.state in From(r) && r != Booting && (r == Shutting ==> a.shutdown)
    ensures Reachable(a, d) && d == c.(state := To(r), last := To(r))
  {
    d := Go(a, c, Ask(r));
    PickOnly(d, r);
    d := Go(a, d, Tick(false));
    assert d.flags == {};
    d := Go(a, d, Complete);
  }

  lemma PickOnly(c: Control, r: Request)
    requires c.flags == {r} && !c.recover && !c.exception
    ensures NextPick(c) == PickTransition(r)
  {
    EveryRequestIsOrdered();
  }

  lemma Boot(a: Alphabet) returns (c: Control)
    ensures Reachable(a, c) && c == INITIAL.(state := Booted, last := Booted, launched := a.managed)
  {
    Begin(a);
    c := Go(a, INITIAL, Ask(Booting));
    PickOnly(c, Booting);
    c := Go(a, c, Tick(false));
    assert c.flags == {};
    c := Go(a, c, ResetVariables);
    if a.managed { c := Go(a, c, LaunchProcesses); }
    c := Go(a, c, Complete);
  }

  // Without effective recovery a start requested just before a recover outlives it.
  lemma StartOutlivesRecovery(a: Alphabet)
    requires !Recoverable(a)
    ensures !Guaranteed(a)
  {
    var c := Boot(a);
    c := Carry(a, c, Configuring);
    c := Go(a, c, Ask(Starting));
    c := Go(a, c, AskRecover);
    RecoverBeforeStart(c);
    c := Go(a, c, Tick(false));
    assert c.activity == Recovering(true, None, false) && Starting in c.flags;
    Improper(a, c, FinishRecovery);
  }

  lemma RecoverBeforeStart(c: Control)
    requires c.flags == {Starting} && c.recover && !c.exception
    ensures NextPick(c) == PickRecover
  {
  }

  // A boot requested while a no-op recovery runs stays queued although the state says "stopped".
  lemma BootOutlivesNoopRecovery(a: Alphabet)
    requires a.noopRace
    ensures !Guaranteed(a)
  {
    Begin(a);
    var c := Go(a, INITIAL, AskRecover);
    c := Go(a, c, Tick(false));
    c := Go(a, c, AskRecover);
    c := Go(a, c, FinishRecovery);
    assert c == INITIAL.(recover := true);
    c := Go(a, c, Tick(false));
    c := Go(a, c, Ask(Booting));
    assert c.activity == Recovering(true, None, false) && Booting in c.flags;
    Improper(a, c, FinishRecovery);
  }

  // After a shutdown the state has no name, and a start is accepted and carried out.
  lemma StartAfterShutdown(a: Alphabet)
    requires a.shutdown
    ensures !Guaranteed(a)
  {
    var c := Boot(a);
    c := Carry(a, c, Configuring);
    c := Carry(a, c, Shutting);
    c := Go(a, c, Ask(Starting));
    PickOnly(c, Starting);
    assert c.last == Nameless;
    Improper(a, c, Tick(false));
  }

  // A handler that goes on after recovering midway lets a boot be queued behind itself.
  lemma BootBehindHandler(a: Alphabet)
    requires a.carryOn && Recoverable(a)
    ensures !Guaranteed(a)
  {
    var c := Boot(a);
    c := Go(a, c, Ask(Configuring));
    PickOnly(c, Configuring);
    c := Go(a, c, Tick(false));
    c := Go(a, c, RecoverMidway);
    c := Go(a, c, FinishRecovery);
    assert c.activity == Handling(Configuring, Entered) && c.state == Stopped;
    assert Booting in Apply(a, c, Ask(Booting)).flags;
    Improper(a, c, Ask(Booting));
  }

  // The exact condition.
  lemma GuaranteedIffBenign(a: Alphabet)
    ensures Guaranteed(a) <==> Recoverable(a) && !a.shutdown && !a.carryOn && !a.noopRace
  {
    if Benign(a) {
      forall c, step | Reachable(a, c) && Enabled(a, c, step) ensures Proper(a, c, step) {
        var steps :| Leads(a, steps, c);
        RunsKeepInv(a, steps, c);
        StepKeepsInv(a, c, step);
      }
    } else if !Recoverable(a) {
      StartOutlivesRecovery(a);
    } else if a.shutdown {
      StartAfterShutdown(a);
    } else if a.carryOn {
      BootBehindHandler(a);
    } else {
      BootOutlivesNoopRecovery(a);
    }
  }

  // ----- run by run: the steps that break the guarantee, in any alphabet

  // A step that starts a recovery which will be a no-op, with a transition queued.
  predicate LeavesQueued(a: Alphabet, c: Control, step: Step)
    requires Enabled(a, c, step)
  {
    var d := Apply(a, c, step);
    !c.activity.Recovering? && d.activity.Recovering? && d.activity.noop && d.flags != {}
  }

  // A request that is accepted behind a handler that goes on after recovering, during a no-op recovery,
  // or, with nothing under way, from a state its transition may not start from, the nameless one; unless
  // an exception or a recovery that is pending comes first.
  predicate AcceptedWrongly(c: Control, r: Request) {
    && Accepts(c.state, r)
    && match c.activity
       case Handling(_, _) => true
       case Recovering(noop, _, _) => noop
       case Idle => c.last !in From(r) && NextPick(c.(flags := c.flags + {r})) == PickTransition(r)
  }

  predicate Harmless(a: Alphabet, c: Control, step: Step)
    requires Enabled(a, c, step)
  {
    (step.Ask? ==> !AcceptedWrongly(c, step.r)) && !LeavesQueued(a, c, step)
  }

  ghost predicate Scheduled(a: Alphabet, c: Control, steps: seq<Step>)
    decreases |steps|
  {
    steps == [] || (Enabled(a, c, steps[0]) && Scheduled(a, Apply(a, c, steps[0]), steps[1..]))
  }

  ghost predicate HarmlessAll(a: Alphabet, c: Control, steps: seq<Step>)
    requires Scheduled(a, c, steps)
    decreases |steps|
  {
    steps == [] || (Harmless(a, c, steps[0]) && HarmlessAll(a, Apply(a, c, steps[0]), steps[1..]))
  }

  ghost predicate ProperAll(a: Alphabet, c: Control, steps: seq<Step>)
    requires Scheduled(a, c, steps)
    decreases |steps|
  {
    steps == [] || (Proper(a, c, steps[0]) && ProperAll(a, Apply(a, c, steps[0]), steps[1..]))
  }

  // What harmless steps keep, whatever else is allowed.
  ghost predicate RunInv(c: Control) {
    && AtMostOnePending(c)
    && (forall r :: r in c.flags ==> c.state == Doing(r) || c.state == DoingRecover)
    && (!c.activity.Recovering? ==>
        forall r :: r in c.flags ==> c.last in From(r) || (c.activity == Idle && !NextPick(c).PickTransition?))
    && (!c.activity.Recovering? && !c.state.Doing? && c.state != DoingRecover && c.state != ReadyOrBooted ==>
        c.state == c.last)
    && (c.activity.Handling? && c.state.Doing? ==> c.state == Doing(c.activity.r) && c.last in From(c.activity.r))
    && (c.activity.Recovering? && c.activity.noop ==> c.flags == {})
  }

  lemma HarmlessStep(a: Alphabet, c: Control, step: Step)
    requires RunInv(c) && Enabled(a, c, step) && Harmless(a, c, step)
    ensures RunInv(Apply(a, c, step)) && Proper(a, c, step)
  {
    match step
    case Ask(_) | AskRecover => HarmlessAsk(a, c, step);
    case Tick(_) => HarmlessTick(a, c, step);
    case _ => HarmlessEnd(a, c, step);
  }

  lemma HarmlessAsk(a: Alphabet, c: Control, step: Step)
    requires RunInv(c) && Enabled(a, c, step) && Harmless(a, c, step) && (step.Ask? || step.AskRecover?)
    ensures RunInv(Apply(a, c, step)) && Proper(a, c, step)
  {
    if step.Ask? && Accepts(c.state, step.r) { NothingQueued(c); }
  }

  // Where a request is accepted, no transition is queued.
  lemma NothingQueued(c: Control)
    requires RunInv(c) && !c.state.Doing? && c.state != DoingRecover
    ensures c.flags == {}
  {
  }

  lemma HarmlessTick(a: Alphabet, c: Control, step: Step)
    requires RunInv(c) && Enabled(a, c, step) && Harmless(a, c, step) && step.Tick?
    ensures RunInv(Apply(a, c, step)) && Proper(a, c, step)
  {
    EveryRequestIsOrdered();
  }

  lemma HarmlessEnd(a: Alphabet, c: Control, step: Step)
    requires RunInv(c) && Enabled(a, c, step) && Harmless(a, c, step) && !step.Ask? && !step.AskRecover? && !step.Tick?
    ensures RunInv(Apply(a, c, step)) && Proper(a, c, step)
  {
  }

  // A run breaks the guarantee only if it holds one of those steps.
  lemma {:induction false} HarmlessRunsAreProper(a: Alphabet, c: Control, steps: seq<Step>)
    requires RunInv(c) && Scheduled(a, c, steps) && HarmlessAll(a, c, steps)
    ensures ProperAll(a, c, steps)
    decreases |steps|
  {
    if steps != [] {
      HarmlessStep(a, c, steps[0]);
      HarmlessRunsAreProper(a, Apply(a, c, steps[0]), steps[1..]);
    }
  }

  // And each of them does: that step is not proper, or the next one need not be.
  lemma HarmfulStepsBreak(a: Alphabet, c: Control, step: Step) returns (next: Step)
    requires RunInv(c) && Enabled(a, c, step) && !Harmless(a, c, step)
    ensures !Proper(a, c, step) || (Enabled(a, Apply(a, c, step), next) && !Proper(a, Apply(a, c, step), next))
  {
    next := if c.activity == Idle && step.Ask? then Tick(false) else FinishRecovery;
    if c.activity == Idle && step.Ask? {
      var d := Apply(a, c, step);
      assert d.flags == c.flags + {step.r} && NextPick(d) == PickTransition(step.r);
    }
  }

  // ----- the object whose fields the two threads assign

  class DaqInterface {
    const a: Alphabet
    var state: DaqState
    var flags: set<Request>  // which of the __do_... booleans are set
    var doRecover: bool
    var exception: bool
    var calledLaunchProcs: bool
    var activity: Activity
    ghost var last: DaqState

    ghost function View(): Control
      reads this
    {
      Control(state, flags, doRecover, exception, calledLaunchProcs, activity, last)
    }

    constructor (a: Alphabet)
      ensures this.a == a && View() == INITIAL
    {
      this.a := a;
      state, exception, calledLaunchProcs, activity, last := Stopped, false, false, Idle, Stopped;
      flags, doRecover := {}, false;
    }

    // The RPC entry point for the guarded transitions.
    method StateChange(requested: Request)
      requires Enabled(a, View(), Ask(requested))
      modifies this
      ensures View() == Apply(a, old(View()), Ask(requested))
    {
      if !Accepts(state, requested) { return; }
      state := Doing(requested);
      flags := flags + {requested};
    }

    method RequestRecover()
      modifies this
      ensures View() == Apply(a, old(View()), AskRecover)
    {
      state := DoingRecover;
      doRecover := true;
    }

    // One turn of the runner: the chain of tests that decides what is carried out next.
    method Runner(checkFails: bool)
      requires Enabled(a, View(), Tick(checkFails))
      modifies this
      ensures View() == Apply(a, old(View()), Tick(checkFails))
    {
      ghost var c := View();
      PickFollowsChain(c);
      if exception {
        activity := Recovering(a.recoveryDisabled || !calledLaunchProcs, None, true);
      } else if Booting in flags {
        flags := flags - {Booting};
        activity := Handling(Booting, Entered);
      } else if Shutting in flags {
        flags := flags - {Shutting};
        activity := Handling(Shutting, Entered);
      } else if Configuring in flags {
        flags := flags - {Configuring};
        activity := Handling(Configuring, Entered);
      } else if doRecover {
        doRecover := false;
        activity := Recovering(a.recoveryDisabled || !calledLaunchProcs, None, false);
      } else if Starting in flags {
        flags := flags - {Starting};
        activity := Handling(Starting, Entered);
      } else if Stopping in flags {
        flags := flags - {Stopping};
        activity := Handling(Stopping, Entered);
      } else if Terminating in flags {
        flags := flags - {Terminating};
        activity := Handling(Terminating, Entered);
      } else if Pausing in flags {
        flags := flags - {Pausing};
        activity := Handling(Pausing, Entered);
      } else if Resuming in flags {
        flags := flags - {Resuming};
        activity := Handling(Resuming, Entered);
      } else if checkFails {
        activity := Recovering(a.recoveryDisabled || !calledLaunchProcs, None, true);
      }
    }

    method CompleteStateChange()
      requires Enabled(a, View(), Complete)
      modifies this
      ensures View() == Apply(a, old(View()), Complete)
    {
      state, last := To(activity.r), To(activity.r);
      activity := Idle;
    }

    method RevertStateChange(reset: bool)
      requires Enabled(a, View(), Revert(reset))
      modifies this
      ensures View() == Apply(a, old(View()), Revert(reset))
    {
      if reset { calledLaunchProcs, exception := false, false; }
      state := FallBack(state);
      activity := Idle;
    }

    // do_boot forgets the run before, and launches the processes.
    method ResetForBoot()
      requires Enabled(a, View(), ResetVariables)
      modifies this
      ensures View() == Apply(a, old(View()), ResetVariables)
    {
      calledLaunchProcs, exception := false, false;
      activity := Handling(Booting, Reset);
    }

    method LaunchProcs()
      requires Enabled(a, View(), LaunchProcesses)
      modifies this
      ensures View() == Apply(a, old(View()), LaunchProcesses)
    {
      calledLaunchProcs := true;
      activity := Handling(Booting, Launched);
    }

    // alert_and_recover, from a handler that ends there or that goes on afterwards.
    method AlertAndRecover(raised: bool, clears: bool, goesOn: bool)
      requires if goesOn then !raised && !clears && Enabled(a, View(), RecoverMidway)
               else Enabled(a, View(), Fail(clears, raised))
      modifies this
      ensures View() == Apply(a, old(View()), if goesOn then RecoverMidway else Fail(clears, raised))
    {
      if raised { exception := true; }
      var handler := if goesOn then Some(activity.r) else None;
      activity := Recovering(a.recoveryDisabled || !calledLaunchProcs, handler, clears);
    }

    // The end of do_recover.
    method EndRecovery()
      requires Enabled(a, View(), FinishRecovery)
      modifies this
      ensures View() == Apply(a, old(View()), FinishRecovery)
    {
      if !activity.noop {
        flags, doRecover := {}, false;
      }
      state, last := Stopped, Stopped;
      if activity.clears { exception := false; }
      activity := if activity.resume.Some? then Handling(activity.resume.value, Entered) else Idle;
    }
  }

  // ----- a whole run of the object

  // What a run has to show: the transitions carried out, each with the state the last completed one
  // led to; those completed, each with the state it led to; and what each recovery left.
  datatype Record = Record(started: seq<(Request, DaqState)>, ended: seq<(Request, DaqState)>,
                           left: seq<(set<Request>, DaqState)>)

  // The state that a completed transition has to lead to; the runner's Shutdown leads to no name.
  ghost function EndState(r: Request): DaqState {
    match r
    case Booting => Booted
    case Configuring | Stopping => Ready
    case Starting | Resuming => Running
    case Pausing => Paused
    case Terminating => Stopped
    case Shutting => Nameless
  }

  ghost function Note(c: Control, step: Step, d: Control, r: Record): Record {
    match step
    case Tick(_) => if NextPick(c).PickTransition? then r.(started := r.started + [(NextPick(c).r, c.last)]) else r
    case Complete => if c.activity.Handling? then r.(ended := r.ended + [(c.activity.r, d.state)]) else r
    case FinishRecovery => r.(left := r.left + [(d.flags, d.state)])
    case _ => r
  }

  ghost predicate AllRight(r: Record) {
    && (forall k :: 0 <= k < |r.started| ==> r.started[k].1 in From(r.started[k].0))
    && (forall k :: 0 <= k < |r.ended| ==> r.ended[k].1 == EndState(r.ended[k].0))
    && (forall k :: 0 <= k < |r.left| ==> r.left[k] == ({}, Stopped))
  }

  lemma NoteKeepsRight(a: Alphabet, c: Control, step: Step, r: Record)
    requires Enabled(a, c, step) && Proper(a, c, step) && AllRight(r)
    ensures AllRight(Note(c, step, Apply(a, c, step), r))
  {
  }

  // However requests, ticks and the ends of handlers and recoveries follow each other: if the schedule
  // holds no harmful step, every transition carried out started from a state it may start from and ended
  // in the one it leads to, and every recovery ended in "stopped" and left nothing queued.
  method Drive(a: Alphabet, steps: seq<Step>) returns (daq: DaqInterface, ghost r: Record)
    requires Scheduled(a, INITIAL, steps)
    ensures HarmlessAll(a, INITIAL, steps) ==> AllRight(r) && AtMostOnePending(daq.View())
    ensures Benign(a) ==> AllRight(r) && AtMostOnePending(daq.View())
    ensures fresh(daq) && Leads(a, steps, daq.View())
  {
    daq := new DaqInterface(a);
    r := Record([], [], []);
    ghost var harmless := HarmlessAll(a, INITIAL, steps);
    assert steps[0..] == steps;
    for i := 0 to |steps|
      invariant fresh(daq) && daq.a == a && Scheduled(a, daq.View(), steps[i..]) && Leads(a, steps[..i], daq.View())
      invariant OnCourse(a, daq.View(), steps[i..], harmless, r)
    {
      ghost var c := daq.View();
      LeadsFurther(a, steps, i, c);
      StaysOnCourse(a, c, steps, i, harmless, r);
      TakeStep(daq, steps[i]);
      r := Note(c, steps[i], daq.View(), r);
    }
    assert steps[..|steps|] == steps;
  }

  // Harmless steps lie ahead, or all of a benign alphabet may, and so far all is right.
  ghost predicate OnCourse(a: Alphabet, c: Control, steps: seq<Step>, harmless: bool, r: Record)
    requires Scheduled(a, c, steps)
  {
    && (harmless ==> HarmlessAll(a, c, steps) && RunInv(c) && AllRight(r))
    && (Benign(a) ==> Inv(c) && AllRight(r))
  }

  lemma LeadsFurther(a: Alphabet, steps: seq<Step>, i: nat, c: Control)
    requires i < |steps| && Leads(a, steps[..i], c) && Scheduled(a, c, steps[i..])
    ensures Enabled(a, c, steps[i]) && Leads(a, steps[..i + 1], Apply(a, c, steps[i]))
  {
    assert steps[..i + 1][..i] == steps[..i];
  }

  lemma StaysOnCourse(a: Alphabet, c: Control, steps: seq<Step>, i: nat, harmless: bool, r: Record)
    requires i < |steps| && Scheduled(a, c, steps[i..]) && OnCourse(a, c, steps[i..], harmless, r)
    ensures Enabled(a, c, steps[i])
    ensures var d := Apply(a, c, steps[i]);
            Scheduled(a, d, steps[i + 1..]) && OnCourse(a, d, steps[i + 1..], harmless, Note(c, steps[i], d, r))
  {
    assert steps[i..][0] == steps[i] && steps[i..][1..] == steps[i + 1..];
    if harmless { HarmlessStep(a, c, steps[i]); }
    if Benign(a) { StepKeepsInv(a, c, steps[i]); }
    if harmless || Benign(a) { NoteKeepsRight(a, c, steps[i], r); }
  }

  method TakeStep(daq: DaqInterface, step: Step)
    requires Enabled(daq.a, daq.View(), step)
    modifies daq
    ensures daq.View() == Apply(daq.a, old(daq.View()), step)
  {
    match step {
      case Ask(r) => daq.StateChange(r);
      case AskRecover => daq.RequestRecover();
      case Tick(fails) => daq.Runner(fails);
      case ResetVariables => daq.ResetForBoot();
      case LaunchProcesses => daq.LaunchProcs();
      case Complete => daq.CompleteStateChange();
      case Revert(reset) => daq.RevertStateChange(reset);
      case Fail(escapes, raised) => daq.AlertAndRecover(raised, escapes, false);
      case RecoverMidway => daq.AlertAndRecover(false, false, true);
      case FinishRecovery => daq.EndRecovery();
    }
  }

  // The two-list order of NextPick, spelled out flag by flag.
  lemma PickFollowsChain(c: Control)
    ensures NextPick(c) ==
            if c.exception then PickException
            else if Booting in c.flags then PickTransition(Booting)
            else if Shutting in c.flags then PickTransition(Shutting)
            else if Configuring in c.flags then PickTransition(Configuring)
            else if c.recover then PickRecover
            else if Starting in c.flags then PickTransition(Starting)
            else if Stopping in c.flags then PickTransition(Stopping)
            else if Terminating in c.flags then PickTransition(Terminating)
            else if Pausing in c.flags then PickTransition(Pausing)
            else if Resuming in c.flags then PickTransition(Resuming)
            else PickNothing
  {
    EveryRequestIsOrdered();
    var early, late := BEFORE_RECOVER, AFTER_RECOVER;
    assert early[1..] == [Shutting, Configuring] && early[1..][1..] == [Configuring];
    assert FirstOf(early, c.flags) == if Booting in c.flags then Some(Booting) else FirstOf(early[1..], c.flags);
    assert FirstOf(early[1..], c.flags)
           == if Shutting in c.flags then Some(Shutting) else FirstOf([Configuring], c.flags);
    assert late[1..] == [Stopping, Terminating, Pausing, Resuming];
    assert late[1..][1..] == [Terminating, Pausing, Resuming];
    assert late[1..][1..][1..] == [Pausing, Resuming];
    assert FirstOf(late, c.flags) == if Starting in c.flags then Some(Starting) else FirstOf(late[1..], c.flags);
    assert FirstOf(late[1..], c.flags)
           == if Stopping in c.flags then Some(Stopping) else FirstOf(late[1..][1..], c.flags);
    assert FirstOf(late[1..][1..], c.flags)
           == if Terminating in c.flags then Some(Terminating) else FirstOf([Pausing, Resuming], c.flags);
    assert [Pausing, Resuming][1..] == [Resuming];
  }
}
