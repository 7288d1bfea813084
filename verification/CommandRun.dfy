/** The threads of one command, interleaved.  Every thread first looks at the shared exception
    flag, then talks to its process; a bucket starts only when the one before it has been joined. */
module CommandRun {
  import opened SubsystemGraph
  import opened SubsystemOrder
  import opened Processes
  import opened TransitionSchedule

  datatype Event = Sent(i: nat) | Done(i: nat, ok: bool) | Skipped(i: nat)

  // `next` buckets have been started; the threads of the last one are `waiting` to look at the
  // flag or busy `sending`.
  datatype State = State(next: nat, waiting: set<nat>, sending: set<nat>, exception: bool, log: seq<Event>)

  datatype Step = StartBucket | Look(i: nat) | Answer(i: nat, ok: bool)

  ghost predicate Enabled(plan: seq<Bucket>, s: State, step: Step) {
    match step
    case StartBucket => s.waiting == {} && s.sending == {} && s.next < |plan|
    case Look(i) => i in s.waiting
    case Answer(i, _) => i in s.sending
  }

  ghost function Apply(plan: seq<Bucket>, s: State, step: Step): State
    requires Enabled(plan, s, step)
  {
    match step
    case StartBucket =>
      s.(next := s.next + 1, waiting := set i | i in plan[s.next].members)
    case Look(i) =>
      if s.exception then s.(waiting := s.waiting - {i}, log := s.log + [Skipped(i)])
      else s.(waiting := s.waiting - {i}, sending := s.sending + {i}, log := s.log + [Sent(i)])
    case Answer(i, ok) =>
      s.(sending := s.sending - {i}, exception := s.exception || !ok, log := s.log + [Done(i, ok)])
  }

  ghost function Initial(exception: bool): State {
    State(0, {}, {}, exception, [])
  }

  // The state a schedule of steps leads to.
  ghost predicate Leads(plan: seq<Bucket>, from: State, steps: seq<Step>, to: State)
    decreases |steps|
  {
    if steps == [] then from == to
    else
      var init := steps[..|steps| - 1];
      exists mid ::
        && Leads(plan, from, init, mid) && Enabled(plan, mid, steps[|steps| - 1])
        && to == Apply(plan, mid, steps[|steps| - 1])
  }

  // ----- invariants

  // Whoever is sent to: all members of all earlier buckets had answered well by then.
  ghost predicate Barrier(plan: seq<Bucket>, log: seq<Event>) {
    forall q, a, b, i | 0 <= q < |log| && log[q].Sent? && 0 <= a < b < |plan|
                        && log[q].i in plan[b].members && i in plan[a].members :: Done(i, true) in log[..q]
  }

  predicate SameKind(x: Event, y: Event) {
    (x.Sent? && y.Sent?) || (x.Done? && y.Done?)
  }

  // Nobody is sent to twice, and nobody answers twice.
  ghost predicate AtMostOnce(log: seq<Event>) {
    forall p, q | 0 <= p < |log| && 0 <= q < |log| && SameKind(log[p], log[q]) && log[p].i == log[q].i :: p == q
  }

  // An answer comes from a process that was sent to before.
  ghost predicate Prompted(log: seq<Event>) {
    forall q | 0 <= q < |log| && log[q].Done? :: Sent(log[q].i) in log[..q]
  }

  ghost predicate Disjoint(plan: seq<Bucket>) {
    forall a, b, i | 0 <= a < |plan| && 0 <= b < |plan| && i in plan[a].members && i in plan[b].members :: a == b
  }

  // Every thread started so far is still at work or has answered well.
  ghost predicate StartedAreDone(plan: seq<Bucket>, s: State)
    requires s.next <= |plan|
  {
    forall b, i | 0 <= b < s.next && i in plan[b].members && i !in s.waiting && i !in s.sending ::
      Done(i, true) in s.log
  }

  ghost predicate Inv(plan: seq<Bucket>, s: State) {
    Threads(plan, s) && Logs(plan, s.log)
  }

  ghost predicate Logs(plan: seq<Bucket>, log: seq<Event>) {
    Barrier(plan, log) && AtMostOnce(log) && Prompted(log)
  }

  // The threads at work are those of the bucket started last, and the log agrees with them.
  ghost predicate Threads(plan: seq<Bucket>, s: State) {
    && s.next <= |plan|
    && s.waiting !! s.sending
    && (forall i | i in s.waiting || i in s.sending :: s.next > 0 && i in plan[s.next - 1].members)
    && (forall e | e in s.log :: e.i !in s.waiting && exists b :: 0 <= b < s.next && e.i in plan[b].members)
    && (!s.exception ==> StartedAreDone(plan, s))
    && (forall i | i in s.sending :: Sent(i) in s.log)
    && (forall e | e in s.log && e.Done? :: e.i !in s.sending)
  }

  lemma StepKeepsInv(plan: seq<Bucket>, s: State, step: Step)
    requires Disjoint(plan) && Inv(plan, s) && Enabled(plan, s, step)
    ensures Inv(plan, Apply(plan, s, step))
  {
    match step {
      case StartBucket => StartKeepsInv(plan, s);
      case Look(i) => LookKeepsInv(plan, s, i);
      case Answer(i, ok) => AnswerKeepsInv(plan, s, i, ok);
    }
  }

  lemma StartKeepsInv(plan: seq<Bucket>, s: State)
    requires Disjoint(plan) && Inv(plan, s) && Enabled(plan, s, StartBucket)
    ensures Inv(plan, Apply(plan, s, StartBucket))
  {
    var t := Apply(plan, s, StartBucket);
    forall e | e in t.log ensures e.i !in t.waiting && exists b :: 0 <= b < t.next && e.i in plan[b].members {
      var b :| 0 <= b < s.next && e.i in plan[b].members;
    }
  }

  lemma AnswerKeepsInv(plan: seq<Bucket>, s: State, i: nat, ok: bool)
    requires Disjoint(plan) && Inv(plan, s) && i in s.sending
    ensures Inv(plan, Apply(plan, s, Answer(i, ok)))
  {
    AnswerLogs(plan, s, i, Done(i, ok));
    AnswerThreads(plan, s, i, ok);
  }

  lemma AnswerThreads(plan: seq<Bucket>, s: State, i: nat, ok: bool)
    requires Disjoint(plan) && Threads(plan, s) && i in s.sending
    ensures Threads(plan, Apply(plan, s, Answer(i, ok)))
  {
    var t, e := Apply(plan, s, Answer(i, ok)), Done(i, ok);
    forall b, j | !t.exception && 0 <= b < t.next && j in plan[b].members && j !in t.waiting && j !in t.sending
      ensures Done(j, true) in t.log
    {
      if j == i { assert t.log[|s.log|] == Done(i, true); } else { assert Done(j, true) in s.log; }
    }
    forall x | x in t.log ensures x.i !in t.waiting && exists b :: 0 <= b < t.next && x.i in plan[b].members {
      if x == e { assert i in plan[s.next - 1].members; } else { assert x in s.log; }
    }
  }

  lemma AnswerLogs(plan: seq<Bucket>, s: State, i: nat, e: Event)
    requires Inv(plan, s) && i in s.sending && e.Done? && e.i == i
    ensures Barrier(plan, s.log + [e]) && AtMostOnce(s.log + [e]) && Prompted(s.log + [e])
  {
    BarrierGrows(plan, s.log, e);
    OnceGrows(s.log, e);
    PromptedGrows(s.log, e);
  }

  // Appending an event keeps the barrier if the event does, too.
  lemma BarrierGrows(plan: seq<Bucket>, log: seq<Event>, e: Event)
    requires Barrier(plan, log)
    requires e.Sent? ==> forall a, b, i | 0 <= a < b < |plan| && e.i in plan[b].members && i in plan[a].members ::
             Done(i, true) in log
    ensures Barrier(plan, log + [e])
  {
    var log' := log + [e];
    forall q, a, b, i | 0 <= q < |log'| && log'[q].Sent? && 0 <= a < b < |plan|
                        && log'[q].i in plan[b].members && i in plan[a].members
      ensures Done(i, true) in log'[..q]
    {
      if q < |log| { assert log'[..q] == log[..q] && log'[q] == log[q]; } else { assert log'[..q] == log; }
    }
  }

  lemma PromptedGrows(log: seq<Event>, e: Event)
    requires Prompted(log) && (e.Done? ==> Sent(e.i) in log)
    ensures Prompted(log + [e])
  {
    var log' := log + [e];
    forall q | 0 <= q < |log'| && log'[q].Done? ensures Sent(log'[q].i) in log'[..q] {
      if q < |log| { assert log'[..q] == log[..q]; } else { assert log'[..q] == log; }
    }
  }

  lemma OnceGrows(log: seq<Event>, e: Event)
    requires AtMostOnce(log)
    requires forall x | x in log && SameKind(x, e) :: x.i != e.i
    ensures AtMostOnce(log + [e])
  {
    var log' := log + [e];
    forall p, q | 0 <= p < |log'| && 0 <= q < |log'| && SameKind(log'[p], log'[q]) && log'[p].i == log'[q].i
      ensures p == q {
      if p < |log| { assert log'[p] in log; }
      if q < |log| { assert log'[q] in log; }
    }
  }

  // When a thread finds the flag down, everyone in earlier buckets has answered well.
  lemma EarlierAreDone(plan: seq<Bucket>, s: State, i: nat)
    requires Disjoint(plan) && Inv(plan, s) && i in s.waiting && !s.exception
    ensures forall a, b, j | 0 <= a < b < |plan| && i in plan[b].members && j in plan[a].members ::
            Done(j, true) in s.log
  {
    forall a, b, j | 0 <= a < b < |plan| && i in plan[b].members && j in plan[a].members
      ensures Done(j, true) in s.log {
      assert b == s.next - 1;
      assert j !in plan[s.next - 1].members;
    }
  }

  // The event of a thread that has just looked at the flag keeps the log in shape.
  lemma LookLogs(plan: seq<Bucket>, s: State, i: nat, e: Event)
    requires Disjoint(plan) && Inv(plan, s) && i in s.waiting && e == if s.exception then Skipped(i) else Sent(i)
    ensures Barrier(plan, s.log + [e]) && AtMostOnce(s.log + [e]) && Prompted(s.log + [e])
  {
    if !s.exception { EarlierAreDone(plan, s, i); }
    BarrierGrows(plan, s.log, e);
    OnceGrows(s.log, e);
    PromptedGrows(s.log, e);
  }

  lemma LookKeepsInv(plan: seq<Bucket>, s: State, i: nat)
    requires Disjoint(plan) && Inv(plan, s) && i in s.waiting
    ensures Inv(plan, Apply(plan, s, Look(i)))
  {
    LookLogs(plan, s, i, if s.exception then Skipped(i) else Sent(i));
    LookThreads(plan, s, i);
  }

  lemma LookThreads(plan: seq<Bucket>, s: State, i: nat)
    requires Threads(plan, s) && i in s.waiting
    ensures Threads(plan, Apply(plan, s, Look(i)))
  {
    var t := Apply(plan, s, Look(i));
    var e := if s.exception then Skipped(i) else Sent(i);
    assert t.log == s.log + [e] && t.log[|s.log|] == e;
    assert i in plan[s.next - 1].members;
    forall x | x in t.log ensures x.i !in t.waiting && exists b :: 0 <= b < t.next && x.i in plan[b].members {
      if x != e { assert x in s.log; }
    }
    forall j | j in t.sending ensures Sent(j) in t.log {
      if j in s.sending { assert Sent(j) in s.log; }
    }
    assert !t.exception ==> StartedAreDone(plan, t);
  }

  lemma {:induction false} RunsKeepInv(plan: seq<Bucket>, exception: bool, steps: seq<Step>, s: State)
    requires Disjoint(plan) && Leads(plan, Initial(exception), steps, s)
    ensures Inv(plan, s)
    ensures exception ==> s.exception && forall e :: e in s.log ==> !e.Sent?
    decreases |steps|
  {
    if steps != [] {
      var init, last := steps[..|steps| - 1], steps[|steps| - 1];
      var mid :| Leads(plan, Initial(exception), init, mid) && Enabled(plan, mid, last) && s == Apply(plan, mid, last);
      RunsKeepInv(plan, exception, init, mid);
      StepKeepsInv(plan, mid, last);
    }
  }

  lemma PlansAreDisjoint(g: Subsystems, procs: seq<Process>, c: Command, subs: seq<Id>, plan: seq<Bucket>)
    requires IsCommandPlan(g, procs, c, subs, plan)
    ensures Disjoint(plan)
  {
    forall a, b, i | 0 <= a < |plan| && 0 <= b < |plan| && i in plan[a].members && i in plan[b].members ensures a == b {
      assert IsBucket(procs, subs, KindsInOrder(c), plan[a]);
      ExactlyOneBucket(g, procs, c, subs, plan, i);
    }
  }

  // ----- what holds in every interleaving of a command

  lemma ReachedBarrier(plan: seq<Bucket>, exception: bool, steps: seq<Step>, s: State, q: nat, a: nat, b: nat, i: nat)
    requires Disjoint(plan) && Leads(plan, Initial(exception), steps, s)
    requires q < |s.log| && s.log[q].Sent? && a < b < |plan| && s.log[q].i in plan[b].members && i in plan[a].members
    ensures Done(i, true) in s.log[..q]
  {
    RunsKeepInv(plan, exception, steps, s);
  }

  lemma EventsArePlanned(plan: seq<Bucket>, exception: bool, steps: seq<Step>, s: State, q: nat) returns (b: nat)
    requires Disjoint(plan) && Leads(plan, Initial(exception), steps, s) && q < |s.log|
    ensures b < |plan| && s.log[q].i in plan[b].members
  {
    RunsKeepInv(plan, exception, steps, s);
    assert s.log[q] in s.log;
    b :| 0 <= b < s.next && s.log[q].i in plan[b].members;
  }

  // Whenever a process is told, every process the data flow puts before it has answered without an
  // exception being raised.
  lemma CommandFollowsDataFlow(g: Subsystems, procs: seq<Process>, c: Command, subs: seq<Id>, plan: seq<Bucket>,
                               exception: bool, steps: seq<Step>, s: State, q: nat, i: nat)
    requires IsCommandPlan(g, procs, c, subs, plan) && Leads(plan, Initial(exception), steps, s)
    requires q < |s.log| && s.log[q].Sent? && s.log[q].i < |procs| && i < |procs|
    requires MustPrecede(g, c, procs[i], procs[s.log[q].i])
    ensures Done(i, true) in s.log[..q]
  {
    var j := s.log[q].i;
    PlansAreDisjoint(g, procs, c, subs, plan);
    var b := EventsArePlanned(plan, exception, steps, s, q);
    var a := BucketBefore(g, procs, c, subs, plan, i, j, b);
    ReachedBarrier(plan, exception, steps, s, q, a, b, i);
  }

  // On Stop, Pause and Shutdown, whoever is upstream of a process has answered well before it is told.
  lemma StopsWithTheData(g: Subsystems, procs: seq<Process>, c: Command, subs: seq<Id>, plan: seq<Bucket>,
                         exception: bool, steps: seq<Step>, s: State, q: nat, i: nat)
    requires c == Stop || c == Pause || c == Shutdown
    requires IsCommandPlan(g, procs, c, subs, plan) && Leads(plan, Initial(exception), steps, s)
    requires q < |s.log| && s.log[q].Sent? && s.log[q].i < |procs| && i < |procs|
    requires Upstream(g, procs[i], procs[s.log[q].i])
    ensures Done(i, true) in s.log[..q]
  {
    CommandFollowsDataFlow(g, procs, c, subs, plan, exception, steps, s, q, i);
  }

  // On Init, Start and Resume, whoever is upstream of a process is told only after it has answered well.
  lemma StartsAgainstTheData(g: Subsystems, procs: seq<Process>, c: Command, subs: seq<Id>, plan: seq<Bucket>,
                             exception: bool, steps: seq<Step>, s: State, q: nat, j: nat)
    requires c == Init || c == Start || c == Resume
    requires IsCommandPlan(g, procs, c, subs, plan) && Leads(plan, Initial(exception), steps, s)
    requires q < |s.log| && s.log[q].Sent? && s.log[q].i < |procs| && j < |procs|
    requires Upstream(g, procs[s.log[q].i], procs[j])
    ensures Done(j, true) in s.log[..q]
  {
    CommandFollowsDataFlow(g, procs, c, subs, plan, exception, steps, s, q, j);
  }

  // On every command, of two processes of one type in a subsystem, the one with the lower priority number
  // has answered well before the other is told.
  lemma LowerNumberGoesFirst(g: Subsystems, procs: seq<Process>, c: Command, subs: seq<Id>, plan: seq<Bucket>,
                             exception: bool, steps: seq<Step>, s: State, q: nat, i: nat)
    requires IsCommandPlan(g, procs, c, subs, plan) && Leads(plan, Initial(exception), steps, s)
    requires q < |s.log| && s.log[q].Sent? && s.log[q].i < |procs| && i < |procs|
    requires var p, later := procs[i], procs[s.log[q].i];
             && p.subsystem == later.subsystem && p.subsystem in g.table
             && p.kind == later.kind && p.priority < later.priority
    ensures Done(i, true) in s.log[..q]
  {
    CommandFollowsDataFlow(g, procs, c, subs, plan, exception, steps, s, q, i);
  }

  lemma AnswerAfterSend(log: seq<Event>, r: nat, q: nat)
    requires AtMostOnce(log) && Prompted(log) && r < |log| && q < |log|
    requires log[r].Done? && log[q] == Sent(log[r].i)
    ensures q < r
  {
    var t :| 0 <= t < r && log[t] == Sent(log[r].i);
    assert SameKind(log[t], log[q]);
  }

  lemma LaterSendsSameBucket(plan: seq<Bucket>, log: seq<Event>, p: nat, q: nat, a: nat, b: nat)
    requires AtMostOnce(log) && Prompted(log) && Barrier(plan, log)
    requires p < q < |log| && log[p].Done? && !log[p].ok && log[q].Sent?
    requires a < |plan| && log[p].i in plan[a].members && b < |plan| && log[q].i in plan[b].members
    ensures a == b
  {
    var i, j := log[p].i, log[q].i;
    var t :| 0 <= t < p && log[t] == Sent(i);
    if a < b {
      var r :| 0 <= r < q && log[r] == Done(i, true);
      assert SameKind(log[r], log[p]) && r != p;
      assert false;
    }
    forall r | 0 <= r < |log| && log[r] == Done(j, true) ensures q < r {
      AnswerAfterSend(log, r, q);
    }
    if b < a { assert false; }
  }

  // After a failure nothing outside the failing bucket is sent any more.
  lemma FailureStopsLaterBuckets(g: Subsystems, procs: seq<Process>, c: Command, subs: seq<Id>, plan: seq<Bucket>,
                                 exception: bool, steps: seq<Step>, s: State, p: nat, q: nat, a: nat)
    requires IsCommandPlan(g, procs, c, subs, plan) && Leads(plan, Initial(exception), steps, s)
    requires p < q < |s.log| && s.log[p].Done? && !s.log[p].ok && s.log[q].Sent?
    requires a < |plan| && s.log[p].i in plan[a].members
    ensures s.log[q].i in plan[a].members
  {
    PlansAreDisjoint(g, procs, c, subs, plan);
    var b := EventsArePlanned(plan, exception, steps, s, q);
    RunsKeepInv(plan, exception, steps, s);
    LaterSendsSameBucket(plan, s.log, p, q, a, b);
  }

  // A command that ends without the flag has told every known process exactly once, and each has
  // answered without an exception being raised; one that starts with the flag tells nobody.
  lemma FinishedCommand(g: Subsystems, procs: seq<Process>, c: Command, subs: seq<Id>, plan: seq<Bucket>,
                        exception: bool, steps: seq<Step>, s: State)
    requires IsCommandPlan(g, procs, c, subs, plan) && Leads(plan, Initial(exception), steps, s)
    requires s.next == |plan| && s.waiting == {} && s.sending == {}
    ensures AtMostOnce(s.log) && Prompted(s.log)
    ensures !s.exception ==> forall i :: 0 <= i < |procs| && procs[i].subsystem in g.table ==> Done(i, true) in s.log
    ensures exception ==> forall e :: e in s.log ==> e.Skipped?
  {
    PlansAreDisjoint(g, procs, c, subs, plan);
    RunsKeepInv(plan, exception, steps, s);
    forall i | 0 <= i < |procs| && procs[i].subsystem in g.table && !s.exception ensures Done(i, true) in s.log {
      KnownIsPlanned(g, procs, c, subs, plan, i);
      PlannedIsDone(plan, s, i);
    }
    forall e | exception && e in s.log ensures e.Skipped? {
      OnlyPromptedAnswers(s.log, e);
    }
  }

  lemma PlannedIsDone(plan: seq<Bucket>, s: State, i: nat)
    requires s.next == |plan| && StartedAreDone(plan, s) && s.waiting == {} && s.sending == {}
    requires Contains(plan, i)
    ensures Done(i, true) in s.log
  {
    var b :| 0 <= b < |plan| && i in plan[b].members;
  }

  lemma OnlyPromptedAnswers(log: seq<Event>, e: Event)
    requires Prompted(log) && e in log
    ensures e.Skipped? || exists x :: x in log && x.Sent?
  {
    var q :| 0 <= q < |log| && log[q] == e;
    if e.Done? {
      var t :| 0 <= t < q && log[t] == Sent(e.i);
      assert log[t] in log;
    } else if e.Sent? {
      assert e in log;
    }
  }
}
