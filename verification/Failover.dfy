/** One branch of the fan-out: a range of nodes handled by one process at a time.  The process at the
    branch's head either works for the whole branch or, if it fails, the next node becomes the head. */
module Failover {
  import opened Wrappers
  import opened ExitStatus

  // rcp copies to the head; rgang runs the program on the head for the rest of the branch; rsh runs
  // the command on a single node.
  datatype Stage = Rcp | Rgang | Rsh

  // `status` holds rmt_sh_sts of each node, `overall` the part of overall_status that comes from
  // this branch, `spawned` the nodes for which a process was started, one after the other.
  datatype State = State(
    copy: bool, nodes: nat, head: nat, stages: seq<Option<Stage>>, status: seq<Option<Status>>,
    overall: Status, running: bool, spawned: seq<nat>)

  // Results in a pickle, a status line, the end of the process with its exit status, and the end of
  // a process that was killed when its time had run out.
  datatype Event = Results(loads: seq<Option<Status>>) | Line(value: Status) | Exit(exit: Status) | Expired

  function Start(copy: bool, n: nat): State
    requires n > 0
  {
    Spawn(State(copy, n, 0, seq(n, _ => None), seq(n, _ => None), 0, true, []), 0)
  }

  // spawn_cmd for the nodes from i on.
  function Spawn(st: State, i: nat): State
    requires i < st.nodes == |st.stages|
  {
    var stage :=
      if st.copy then (if st.stages[i] == None then Rcp else Rgang)
      else if st.nodes - i == 1 then Rsh else Rgang;
    st.(head := i, stages := st.stages[i := Some(stage)], running := true, spawned := st.spawned + [i])
  }

  // The first node whose results the rgang at the head reports.
  function FirstReported(st: State): nat {
    if st.copy then st.head + 1 else st.head
  }

  predicate Shaped(st: State) {
    st.head < st.nodes == |st.stages| == |st.status| && (st.running ==> st.stages[st.head].Some?)
  }

  function Now(st: State): Stage
    requires Shaped(st) && st.running
  {
    st.stages[st.head].value
  }

  // Only an rgang sends results, for nodes it was given; only the shell command of rsh ends in a status line.
  predicate Possible(st: State, e: Event)
    requires Shaped(st)
  {
    && st.running
    && match e
       case Results(loads) => Now(st) == Rgang && FirstReported(st) + |loads| <= st.nodes
       case Line(_) => Now(st) == Rsh
       case _ => true
  }

  function Overwrite(s: seq<Option<Status>>, i: nat, loads: seq<Option<Status>>): (r: seq<Option<Status>>)
    requires i + |loads| <= |s|
    ensures |r| == |s|
  {
    s[..i] + loads + s[i + |loads|..]
  }

  function Step(st: State, e: Event): State
    requires Shaped(st) && Possible(st, e)
  {
    match e
    case Results(loads) => st.(status := Overwrite(st.status, FirstReported(st), loads))
    case Line(v) => st.(status := st.status[st.head := Some(v)])
    case Exit(x) => Ended(st, x)
    case Expired =>
      var own := st.status[st.head].UnwrapOr(8);
      Ended(st.(status := st.status[st.head := Some(own)]), own)
  }

  // The process at the head has ended.
  function Ended(st: State, x: Status): State
    requires Shaped(st) && st.running
  {
    match Now(st)
    case Rcp => CopyEnded(st, x)
    case Rsh => CommandEnded(st, x)
    case Rgang => if st.status[st.head].Some? then Delivered(st) else Lost(st, x)
  }

  // The status of the head is final.
  function Record(st: State, x: Status): (r: State)
    requires Shaped(st)
    ensures Shaped(r)
  {
    st.(status := st.status[st.head := Some(x)], overall := Or(st.overall, x))
  }

  function MoveOn(st: State): State
    requires Shaped(st)
  {
    if st.head + 1 == st.nodes then st.(running := false) else Spawn(st, st.head + 1)
  }

  function CopyEnded(st: State, x: Status): State
    requires Shaped(st)
  {
    if x == 0 && st.head + 1 < st.nodes then Spawn(Record(st, x), st.head) else MoveOn(Record(st, x))
  }

  function CommandEnded(st: State, x: Status): State
    requires Shaped(st)
  {
    Record(st, Or(st.status[st.head].UnwrapOr(4), x)).(running := false)
  }

  // An rgang that has reported a status for its own node.
  function Delivered(st: State): State
    requires Shaped(st)
  {
    var filled := FillFrom(st.status, FirstReported(st));
    st.(status := filled, overall := OrFrom(filled, FirstReported(st), st.overall), running := false)
  }

  // An rgang that has not.
  function Lost(st: State, x: Status): State
    requires Shaped(st)
  {
    MoveOn(if st.copy then st else Record(st, Or(2, x)))
  }

  // 3 for every node from i on that has no status.
  function FillFrom(s: seq<Option<Status>>, i: nat): (r: seq<Option<Status>>)
    requires i <= |s|
    ensures |r| == |s|
    ensures forall k :: 0 <= k < |s| ==> r[k] == if k >= i && s[k] == None then Some(3) else s[k]
  {
    seq(|s|, k requires 0 <= k < |s| => if k >= i && s[k] == None then Some(3) else s[k])
  }

  function OrFrom(s: seq<Option<Status>>, i: nat, sofar: Status): Status
    requires i <= |s|
    decreases |s| - i
  {
    if i == |s| then sofar else OrFrom(s, i + 1, Or(sofar, s[i].UnwrapOr(0)))
  }

  // ----- runs

  ghost predicate Run(st: State, events: seq<Event>)
    decreases |events|
  {
    events == [] || (Shaped(st) && Possible(st, events[0]) && Run(Step(st, events[0]), events[1..]))
  }

  ghost function After(st: State, events: seq<Event>): State
    requires Run(st, events)
    decreases |events|
  {
    if events == [] then st else After(Step(st, events[0]), events[1..])
  }

  // The disjunction of the first k statuses.
  function OrFirst(s: seq<Option<Status>>, k: nat): Status
    requires k <= |s|
  {
    if k == 0 then 0 else Or(OrFirst(s, k - 1), s[k - 1].UnwrapOr(0))
  }

  // How many nodes have their final status.
  function Settled(st: State): nat
    requires Shaped(st)
  {
    if !st.running then st.nodes
    else if Now(st) == Rgang && st.copy then st.head + 1
    else st.head
  }

  ghost predicate Inv(st: State) {
    && Shaped(st)
    && (st.running && st.copy ==> Now(st) == Rcp || (Now(st) == Rgang && st.head + 1 < st.nodes))
    && (st.running && !st.copy ==> Now(st) == if st.head + 1 == st.nodes then Rsh else Rgang)
    && (forall k :: st.head < k < st.nodes ==> st.stages[k] == None)
    && (forall k :: 0 <= k < Settled(st) ==> st.status[k].Some?)
    && (forall k :: 0 <= k < st.head ==> st.status[k] != Some(0))
    && st.overall == OrFirst(st.status, Settled(st))
    && SpawnsForward(st)
  }

  // Processes are started for one node after the other, never backwards and none left out: once
  // for a node, and in copy mode at most a second time, the rgang after the rcp.
  ghost predicate Forward(l: seq<nat>, head: nat, copy: bool, first: bool) {
    && (forall i :: 0 <= i < |l| ==> l[i] <= head)
    && (forall i, j :: 0 <= i < j < |l| ==> l[i] <= l[j])
    && (forall n :: multiset(l)[n] <= if copy then 2 else 1)
    && (first ==> multiset(l)[head] <= 1)
    && (forall n :: 0 <= n <= head ==> n in l)
  }

  ghost predicate SpawnsForward(st: State)
    requires Shaped(st)
  {
    Forward(st.spawned, st.head, st.copy, st.running && st.copy && Now(st) == Rcp)
  }

  lemma ForwardNext(l: seq<nat>, head: nat, copy: bool, first: bool)
    requires Forward(l, head, copy, first)
    ensures Forward(l + [head + 1], head + 1, copy, true)
  {
    assert head + 1 !in l;
  }

  lemma ForwardAgain(l: seq<nat>, head: nat)
    requires Forward(l, head, true, true)
    ensures Forward(l + [head], head, true, false)
  {
  }

  lemma StartInv(copy: bool, n: nat)
    requires n > 0
    ensures Inv(Start(copy, n))
  {
  }

  lemma OrFirstSame(s: seq<Option<Status>>, t: seq<Option<Status>>, k: nat)
    requires k <= |s| && k <= |t| && forall i :: 0 <= i < k ==> s[i] == t[i]
    ensures OrFirst(s, k) == OrFirst(t, k)
  {
  }

  lemma {:induction false} OrFromFirst(s: seq<Option<Status>>, i: nat)
    requires i <= |s|
    ensures OrFrom(s, i, OrFirst(s, i)) == OrFirst(s, |s|)
    decreases |s| - i
  {
    if i < |s| { OrFromFirst(s, i + 1); }
  }

  // What holds as well while a status line or results have come in.
  ghost predicate Working(st: State) {
    Inv(st) && st.running
  }

  // Everything up to the head is final.
  ghost predicate HeadDone(st: State) {
    && Shaped(st)
    && (forall k :: st.head < k < st.nodes ==> st.stages[k] == None)
    && (forall k :: 0 <= k <= st.head ==> st.status[k].Some?)
    && (forall k :: 0 <= k < st.head ==> st.status[k] != Some(0))
    && st.overall == OrFirst(st.status, st.head + 1)
  }

  lemma RecordDone(st: State, x: Status)
    requires Working(st) && Settled(st) == st.head
    ensures HeadDone(Record(st, x))
  {
    OrFirstNext(st.status, st.head, x);
  }

  lemma OrFirstNext(s: seq<Option<Status>>, k: nat, x: Status)
    requires k < |s|
    ensures OrFirst(s[k := Some(x)], k + 1) == Or(OrFirst(s, k), x)
  {
    OrFirstSame(s, s[k := Some(x)], k);
  }

  // The next node becomes the head.
  lemma MoveOnInv(st: State, was: bool)
    requires HeadDone(st) && Forward(st.spawned, st.head, st.copy, was)
    requires st.head + 1 < st.nodes ==> st.status[st.head] != Some(0)
    ensures Inv(MoveOn(st))
  {
    if st.head + 1 < st.nodes { NextInv(st, was); } else { LastInv(st, was); }
  }

  lemma NextInv(st: State, was: bool)
    requires HeadDone(st) && Forward(st.spawned, st.head, st.copy, was)
    requires st.head + 1 < st.nodes && st.status[st.head] != Some(0)
    ensures Inv(Spawn(st, st.head + 1))
  {
    var t := Spawn(st, st.head + 1);
    NextStage(st);
    NextStatuses(st.status, st.head, t, st.overall);
    NextSpawned(st, was);
  }

  lemma NextStage(st: State)
    requires Shaped(st) && st.head + 1 < st.nodes && st.stages[st.head + 1] == None
    ensures var t := Spawn(st, st.head + 1);
            Shaped(t) && Now(t) == if st.copy then Rcp else if st.head + 2 == st.nodes then Rsh else Rgang
  {
  }

  lemma NextSpawned(st: State, was: bool)
    requires Shaped(st) && st.head + 1 < st.nodes && Forward(st.spawned, st.head, st.copy, was)
    ensures SpawnsForward(Spawn(st, st.head + 1))
  {
    ForwardNext(st.spawned, st.head, st.copy, was);
  }

  lemma NextStatuses(s: seq<Option<Status>>, h: nat, t: State, overall: Status)
    requires Shaped(t) && t.running && t.status == s && t.head == h + 1 && t.overall == overall == OrFirst(s, h + 1)
    requires !(Now(t) == Rgang && t.copy) && s[h] != Some(0)
    requires (forall k :: 0 <= k <= h ==> s[k].Some?) && (forall k :: 0 <= k < h ==> s[k] != Some(0))
    ensures Settled(t) == t.head && t.overall == OrFirst(t.status, Settled(t))
    ensures forall k :: 0 <= k < t.head ==> t.status[k].Some? && t.status[k] != Some(0)
  {
  }

  lemma LastInv(st: State, was: bool)
    requires HeadDone(st) && Forward(st.spawned, st.head, st.copy, was) && st.head + 1 == st.nodes
    ensures Inv(st.(running := false))
  {
  }

  // An rgang is started on the head to which the copy has been made.
  lemma AgainInv(st: State)
    requires HeadDone(st) && st.copy && Forward(st.spawned, st.head, true, true) && st.head + 1 < st.nodes
    requires st.stages[st.head].Some?
    ensures Inv(Spawn(st, st.head))
  {
    ForwardAgain(st.spawned, st.head);
  }

  lemma CopyEndedInv(st: State, x: Status)
    requires Working(st) && Now(st) == Rcp
    ensures Inv(CopyEnded(st, x))
  {
    RecordDone(st, x);
    if x == 0 && st.head + 1 < st.nodes { AgainInv(Record(st, x)); } else { MoveOnInv(Record(st, x), true); }
  }

  lemma CommandEndedInv(st: State, own: Status)
    requires Working(st) && Now(st) == Rsh
    ensures Inv(Record(st, own).(running := false))
  {
    RecordDone(st, own);
    LastInv(Record(st, own), false);
  }

  lemma DeliveredInv(st: State)
    requires Working(st) && Now(st) == Rgang && st.status[st.head].Some?
    ensures Inv(Delivered(st))
  {
    var next, i := Delivered(st), FirstReported(st);
    OrFirstSame(st.status, next.status, i);
    OrFromFirst(next.status, i);
  }

  lemma LostInv(st: State, x: Status)
    requires Working(st) && Now(st) == Rgang && st.status[st.head].None?
    ensures Inv(Lost(st, x))
  {
    RecordDone(st, Or(2, x));
    MoveOnInv(Record(st, Or(2, x)), false);
  }

  lemma EndedInv(st: State, x: Status)
    requires Working(st)
    ensures Inv(Ended(st, x))
  {
    match Now(st)
    case Rcp => CopyEndedInv(st, x);
    case Rsh => CommandEndedInv(st, Or(st.status[st.head].UnwrapOr(4), x));
    case Rgang => if st.status[st.head].Some? { DeliveredInv(st); } else { LostInv(st, x); }
  }

  lemma StepInv(st: State, e: Event)
    requires Inv(st) && Possible(st, e)
    ensures Inv(Step(st, e))
  {
    match e
    case Results(_) | Line(_) => OrFirstSame(st.status, Step(st, e).status, Settled(st));
    case Exit(x) => EndedInv(st, x);
    case Expired =>
      var own := st.status[st.head].UnwrapOr(8);
      var at := st.(status := st.status[st.head := Some(own)]);
      OrFirstSame(st.status, at.status, Settled(st));
      EndedInv(at, own);
  }

  lemma {:induction false} RunInv(st: State, events: seq<Event>)
    requires Inv(st) && Run(st, events)
    ensures Inv(After(st, events))
    decreases |events|
  {
    if events != [] {
      StepInv(st, events[0]);
      RunInv(Step(st, events[0]), events[1..]);
    }
  }

  // ----- what a branch does in the end

  // Whatever the processes do: once none is running every node has a status, a node whose place as
  // head was taken by the next one has not succeeded, and the branch's part of the overall status
  // is the disjunction of all statuses, so it is zero exactly if all are.
  lemma EveryNodeHasStatus(copy: bool, n: nat, events: seq<Event>)
    requires n > 0 && Run(Start(copy, n), events) && !After(Start(copy, n), events).running
    ensures var st := After(Start(copy, n), events);
            && |st.status| == n && (forall k :: 0 <= k < n ==> st.status[k].Some?)
            && st.head < n && (forall k :: 0 <= k < st.head ==> st.status[k].value != 0)
            && st.overall == OrFirst(st.status, n)
            && (st.overall == 0 <==> forall k :: 0 <= k < n ==> st.status[k] == Some(0))
  {
    StartInv(copy, n);
    RunInv(Start(copy, n), events);
    RunNodes(Start(copy, n), events);
    OrFirstZero(After(Start(copy, n), events).status, n);
  }

  lemma {:induction false} OrFirstZero(s: seq<Option<Status>>, k: nat)
    requires k <= |s|
    ensures OrFirst(s, k) == 0 <==> forall i :: 0 <= i < k ==> s[i].UnwrapOr(0) == 0
  {
    if k > 0 { OrFirstZero(s, k - 1); }
  }

  // Which bits are set in the disjunction.
  lemma {:induction false} OrFirstBits(s: seq<Option<Status>>, k: nat, j: nat)
    requires k <= |s|
    ensures Bit(OrFirst(s, k), j) <==> exists i :: 0 <= i < k && BitAt(s, i, j)
  {
    if k == 0 {
      NoBits(j);
    } else {
      OrBits(OrFirst(s, k - 1), s[k - 1].UnwrapOr(0), j);
      OrFirstBits(s, k - 1, j);
      if s[k - 1].None? { NoBits(j); }
      assert (exists i :: 0 <= i < k && BitAt(s, i, j))
             <==> (exists i :: 0 <= i < k - 1 && BitAt(s, i, j)) || BitAt(s, k - 1, j);
    }
  }

  predicate BitAt(s: seq<Option<Status>>, i: nat, j: nat) {
    i < |s| && s[i].Some? && Bit(s[i].value, j)
  }

  lemma OverallBits(copy: bool, n: nat, events: seq<Event>)
    requires n > 0 && Run(Start(copy, n), events) && !After(Start(copy, n), events).running
    ensures var st := After(Start(copy, n), events);
            forall j: nat :: Bit(st.overall, j) <==> exists k :: 0 <= k < n && BitAt(st.status, k, j)
  {
    EveryNodeHasStatus(copy, n, events);
    var st := After(Start(copy, n), events);
    forall j: nat ensures Bit(st.overall, j) <==> exists k :: 0 <= k < n && BitAt(st.status, k, j) {
      OrFirstBits(st.status, n, j);
    }
  }

  // ----- what the statuses tell

  // A status line, a result or the end of an rcp that says zero for node k.
  predicate SaysZero(st: State, e: Event, k: nat) {
    match e
    case Results(loads) =>
      var first := if st.copy then st.head + 1 else st.head;
      first <= k < first + |loads| && loads[k - first] == Some(0)
    case Line(value) => k == st.head && value == 0
    case Exit(x) => k == st.head < |st.stages| && st.stages[k] == Some(Rcp) && x == 0
    case Expired => false
  }

  ghost predicate ReportedZero(st: State, events: seq<Event>, k: nat)
    requires Run(st, events)
    decreases |events|
  {
    events != [] && (SaysZero(st, events[0], k) || ReportedZero(Step(st, events[0]), events[1..], k))
  }

  // Only a node for which that was said has succeeded in the end.
  lemma NoFalseSuccess(copy: bool, n: nat, events: seq<Event>)
    requires n > 0 && Run(Start(copy, n), events)
    ensures var st := After(Start(copy, n), events);
            |st.status| == n && forall k ::
              0 <= k < n && st.status[k] == Some(0) ==> ReportedZero(Start(copy, n), events, k)
  {
    StartInv(copy, n);
    RunInv(Start(copy, n), events);
    RunNodes(Start(copy, n), events);
    forall k | 0 <= k < n && After(Start(copy, n), events).status[k] == Some(0)
      ensures ReportedZero(Start(copy, n), events, k)
    {
      ZeroIsReported(Start(copy, n), events, k);
    }
  }

  lemma {:induction false} ZeroIsReported(st: State, events: seq<Event>, k: nat)
    requires Run(st, events) && k < |After(st, events).status| && After(st, events).status[k] == Some(0)
    ensures (k < |st.status| && st.status[k] == Some(0)) || ReportedZero(st, events, k)
    decreases |events|
  {
    if events != [] {
      ZeroIsReported(Step(st, events[0]), events[1..], k);
      if k < |Step(st, events[0]).status| && Step(st, events[0]).status[k] == Some(0) {
        ZeroStep(st, events[0], k);
      }
    }
  }

  lemma ZeroStep(st: State, e: Event, k: nat)
    requires Shaped(st) && Possible(st, e) && k < |Step(st, e).status| && Step(st, e).status[k] == Some(0)
    ensures k < |st.status| && (st.status[k] == Some(0) || SaysZero(st, e, k))
  {
    match e
    case Results(_) | Line(_) =>
    case Exit(x) => ZeroEnd(st, x, k);
    case Expired =>
      var own := st.status[st.head].UnwrapOr(8);
      ZeroEnd(st.(status := st.status[st.head := Some(own)]), own, k);
  }

  lemma ZeroEnd(st: State, x: Status, k: nat)
    requires Shaped(st) && st.running && k < |Ended(st, x).status| && Ended(st, x).status[k] == Some(0)
    ensures k < |st.status| && (st.status[k] == Some(0) || (x == 0 && k == st.head && Now(st) == Rcp))
  {
  }

  // A branch of any length can end with zero for every node: with one rgang that reports zeros, in copy mode
  // after an rcp that ends well, or with the shell or rcp of a single node.
  lemma AllCanGoWell(copy: bool, n: nat) returns (events: seq<Event>)
    requires n > 0
    ensures Run(Start(copy, n), events)
    ensures var st := After(Start(copy, n), events);
            !st.running && st.overall == 0 && |st.status| == n && forall k :: 0 <= k < n ==> st.status[k] == Some(0)
  {
    var zeros := seq(if copy then n - 1 else n, _ => Some(0));
    var st := Start(copy, n);
    if copy {
      events := if n == 1 then [Exit(0)] else [Exit(0), Results(zeros), Exit(0)];
      var one := Step(st, Exit(0));
      if n == 1 {
        assert [Exit(0)][1..] == [];
      } else {
        RgangGoesWell(one, zeros);
        assert events[1..] == [Results(zeros), Exit(0)];
      }
    } else if n == 1 {
      events := [Line(0), Exit(0)];
      assert events[1..] == [Exit(0)] && [Exit(0)][1..] == [];
    } else {
      events := [Results(zeros), Exit(0)];
      RgangGoesWell(st, zeros);
    }
  }

  lemma RgangGoesWell(st: State, zeros: seq<Option<Status>>)
    requires Shaped(st) && st.running && Now(st) == Rgang && st.overall == 0 &&
             (st.copy ==> st.status[st.head] == Some(0))
    requires st.head == 0 && |zeros| == (if st.copy then st.nodes - 1 else st.nodes)
    requires forall k :: 0 <= k < |zeros| ==> zeros[k] == Some(0)
    ensures Run(st, [Results(zeros), Exit(0)])
    ensures var t := After(st, [Results(zeros), Exit(0)]);
            !t.running && t.overall == 0 && |t.status| == st.nodes && forall k ::
              0 <= k < st.nodes ==> t.status[k] == Some(0)
  {
    var one := Step(st, Results(zeros));
    assert [Results(zeros), Exit(0)][1..] == [Exit(0)] && [Exit(0)][1..] == [];
    assert forall k :: 0 <= k < st.nodes ==> one.status[k] == Some(0);
    OrOfZeros(one.status, FirstReported(one));
  }

  lemma {:induction false} OrOfZeros(s: seq<Option<Status>>, i: nat)
    requires i <= |s| && forall k :: 0 <= k < |s| ==> s[k] == Some(0)
    ensures OrFrom(s, i, 0) == 0 && FillFrom(s, i) == s
    decreases |s| - i
  {
    if i < |s| { OrOfZeros(s, i + 1); }
  }

  // The bits of a status.
  ghost predicate HasBits(status: Option<Status>, bits: iset<nat>) {
    status.Some? && forall j: nat :: Bit(status.value, j) <==> j in bits
  }

  ghost function BitsOf(x: Status): iset<nat> {
    iset j: nat | Bit(x, j)
  }

  // The end of a shell: its status line and its exit status together; 4 stands for no status line.
  lemma ShellEnds(st: State, x: Status)
    requires Shaped(st) && st.running && Now(st) == Rsh
    ensures var t := Step(st, Exit(x));
            && !t.running && (forall k :: 0 <= k < st.nodes && k != st.head ==> t.status[k] == st.status[k])
            && (st.status[st.head] == None ==> HasBits(t.status[st.head], BitsOf(x) + iset{2}))
            && (st.status[st.head].Some? ==> HasBits(t.status[st.head], BitsOf(x) + BitsOf(st.status[st.head].value)))
  {
    forall j: nat ensures Bit(Or(4, x), j) <==> Bit(x, j) || j == 2 {
      OrBits(4, x, j);
      BitsOfFew(j);
    }
    if st.status[st.head].Some? {
      forall j: nat ensures Bit(Or(st.status[st.head].value, x), j) <==> Bit(x, j) || Bit(st.status[st.head].value, j) {
        OrBits(st.status[st.head].value, x, j);
      }
    }
  }

  // 2, 4 and 8 have one bit each.
  lemma BitsOfFew(j: nat)
    ensures (Bit(2, j) <==> j == 1) && (Bit(4, j) <==> j == 2) && (Bit(8, j) <==> j == 3)
  {
    if j > 3 {
      NoBits(j - 2);
      NoBits(j - 3);
      NoBits(j - 4);
    }
  }

  // The end of an rgang that has reported on no node of its own, outside copy mode: 2 and its exit status.
  lemma SilentRgangEnds(st: State, x: Status)
    requires Shaped(st) && st.running && Now(st) == Rgang && !st.copy && st.status[st.head] == None
    ensures var t := Step(st, Exit(x));
            && HasBits(t.status[st.head], BitsOf(x) + iset{1})
            && (forall k :: 0 <= k < st.nodes && k != st.head ==> t.status[k] == st.status[k])
            && t.head == if st.head + 1 < st.nodes then st.head + 1 else st.head
  {
    forall j: nat ensures Bit(Or(2, x), j) <==> Bit(x, j) || j == 1 {
      OrBits(2, x, j);
      BitsOfFew(j);
    }
  }

  // The end of one that has: 3 for every node of its own that it has not reported on.
  lemma ReportingRgangEnds(st: State, x: Status)
    requires Shaped(st) && st.running && Now(st) == Rgang && st.status[st.head].Some?
    ensures var t, first := Step(st, Exit(x)), if st.copy then st.head + 1 else st.head;
            && !t.running
            && forall k :: 0 <= k < st.nodes ==>
                 t.status[k] == if k >= first && st.status[k] == None then Some(3) else st.status[k]
  {
  }

  // A process killed for running out of time that has reported nothing for the head: 8.
  lemma KilledProcess(st: State)
    requires Shaped(st) && st.running && st.status[st.head] == None
    ensures Step(st, Expired).status[st.head] == Some(8)
  {
    SameTwice(8);
  }

  lemma {:induction false} SameTwice(x: Status)
    ensures Or(x, x) == x
  {
    if x > 0 { SameTwice(x / 2); }
  }

  lemma StepNodes(st: State, e: Event)
    requires Shaped(st) && Possible(st, e)
    ensures var t := Step(st, e); t.nodes == st.nodes && t.copy == st.copy && st.head <= t.head
  {
    match e
    case Results(_) | Line(_) =>
    case Exit(x) => EndedNodes(st, x);
    case Expired =>
      var own := st.status[st.head].UnwrapOr(8);
      EndedNodes(st.(status := st.status[st.head := Some(own)]), own);
  }

  lemma EndedNodes(st: State, x: Status)
    requires Shaped(st) && st.running
    ensures var t := Ended(st, x); t.nodes == st.nodes && t.copy == st.copy && st.head <= t.head
  {
  }

  lemma {:induction false} RunNodes(st: State, events: seq<Event>)
    requires Run(st, events)
    ensures After(st, events).nodes == st.nodes && After(st, events).copy == st.copy &&
            st.head <= After(st, events).head
    decreases |events|
  {
    if events != [] {
      StepNodes(st, events[0]);
      RunNodes(Step(st, events[0]), events[1..]);
    }
  }

  // Along every run heads only move forward and no node has more than two processes, or more than
  // one outside copy mode.
  lemma HeadsMoveForward(copy: bool, n: nat, events: seq<Event>)
    requires n > 0 && Run(Start(copy, n), events)
    ensures var l := After(Start(copy, n), events).spawned;
            && (forall i, j :: 0 <= i < j < |l| ==> l[i] <= l[j])
            && (forall k :: multiset(l)[k] <= if copy then 2 else 1)
  {
    StartInv(copy, n);
    RunInv(Start(copy, n), events);
    RunNodes(Start(copy, n), events);
  }

  // An upper bound for how many processes have yet to end.
  function Work(st: State): nat
    requires Shaped(st)
  {
    if !st.running then 0
    else if !st.copy then st.nodes - st.head
    else 2 * (st.nodes - st.head) - (if Now(st) == Rgang then 1 else 0)
  }

  predicate Ends(e: Event) {
    e.Exit? || e.Expired?
  }

  function CountEnds(events: seq<Event>): nat {
    if events == [] then 0 else (if Ends(events[0]) then 1 else 0) + CountEnds(events[1..])
  }

  lemma StepWork(st: State, e: Event)
    requires Inv(st) && Possible(st, e)
    ensures Shaped(Step(st, e))
    ensures if Ends(e) then Work(Step(st, e)) < Work(st) else Work(Step(st, e)) == Work(st)
  {
    StepInv(st, e);
    match e
    case Results(_) | Line(_) =>
    case Exit(x) => EndedWork(st, x);
    case Expired =>
      var own := st.status[st.head].UnwrapOr(8);
      EndedWork(st.(status := st.status[st.head := Some(own)]), own);
  }

  lemma EndedWork(st: State, x: Status)
    requires Shaped(st) && st.running && Shaped(Ended(st, x)) && (Now(st) == Rcp ==> st.copy)
    requires Now(st) == Rgang && st.copy ==> st.status[st.head].Some?
    ensures Work(Ended(st, x)) < Work(st)
  {
    match Now(st)
    case Rcp | Rsh =>
    case Rgang => if st.status[st.head].Some? { assert !Delivered(st).running; }
  }

  lemma {:induction false} RunWork(st: State, events: seq<Event>)
    requires Inv(st) && Run(st, events)
    ensures Inv(After(st, events)) && CountEnds(events) + Work(After(st, events)) <= Work(st)
    decreases |events|
  {
    if events != [] {
      StepInv(st, events[0]);
      StepWork(st, events[0]);
      RunWork(Step(st, events[0]), events[1..]);
    }
  }

  // A branch ends: at most n processes, or 2n in copy mode, end before none is running, and as long
  // as one is running its end is possible.
  lemma BranchEnds(copy: bool, n: nat, events: seq<Event>)
    requires n > 0 && Run(Start(copy, n), events)
    ensures CountEnds(events) <= if copy then 2 * n else n
    ensures var st := After(Start(copy, n), events);
            Shaped(st) && (CountEnds(events) == (if copy then 2 * n else n) ==> !st.running)
            && (st.running ==> forall x :: Possible(st, Exit(x)))
  {
    StartInv(copy, n);
    RunWork(Start(copy, n), events);
    var st := After(Start(copy, n), events);
    assert st.running ==> Work(st) > 0;
  }

  // ----- the branch as the program keeps it

  lemma OverwriteNext(s: seq<Option<Status>>, first: nat, loads: seq<Option<Status>>, i: nat)
    requires first + |loads| <= |s| && i < |loads|
    ensures Overwrite(s, first, loads[..i])[first + i := loads[i]] == Overwrite(s, first, loads[..i + 1])
  {
    var a, b := Overwrite(s, first, loads[..i])[first + i := loads[i]], Overwrite(s, first, loads[..i + 1]);
    forall k | 0 <= k < |s| ensures a[k] == b[k] {}
  }

  class Branch {
    const copy: bool
    const nodes: nat
    var head: nat
    var stages: seq<Option<Stage>>
    var status: seq<Option<Status>>
    var overall: Status
    var running: bool
    ghost var spawned: seq<nat>

    ghost function View(): State reads this {
      State(copy, nodes, head, stages, status, overall, running, spawned)
    }

    constructor (copy: bool, n: nat)
      requires n > 0
      ensures View() == Start(copy, n)
    {
      this.copy, nodes := copy, n;
      head, overall, running, spawned := 0, 0, false, [];
      stages, status := seq(n, _ => None), seq(n, _ => None);
      new;
      SpawnOn(0);
    }

    method SpawnOn(i: nat)
      requires i < nodes == |stages|
      modifies this
      ensures View() == Spawn(old(View()), i)
    {
      var stage: Stage;
      if copy {
        stage := if stages[i] == None then Rcp else Rgang;
      } else {
        stage := if nodes - i == 1 then Rsh else Rgang;
      }
      head, stages, running, spawned := i, stages[i := Some(stage)], true, spawned + [i];
    }

    // unpickle_and_add_to_ret_info
    method AddResults(loads: seq<Option<Status>>)
      requires Shaped(View()) && Possible(View(), Results(loads))
      modifies this`status
      ensures View() == Step(old(View()), Results(loads))
    {
      var first := if copy then head + 1 else head;
      ghost var before := status;
      for i := 0 to |loads|
        invariant status == Overwrite(before, first, loads[..i])
      {
        OverwriteNext(before, first, loads, i);
        status := status[first + i := loads[i]];
      }
      assert loads[..|loads|] == loads;
    }

    method AddLine(value: Status)
      requires Shaped(View()) && Possible(View(), Line(value))
      modifies this`status
      ensures View() == Step(old(View()), Line(value))
    {
      status := status[head := Some(value)];
    }

    // The process was killed because its time had run out.
    method Expire()
      requires Shaped(View()) && running
      modifies this
      ensures View() == Step(old(View()), Expired)
    {
      if status[head] == None {
        status := status[head := Some(8)];
      }
      ghost var own := old(status[head].UnwrapOr(8));
      assert View() == old(View()).(status := old(status)[head := Some(own)]) && status[head].value == own;
      End(status[head].value);
    }

    method Settle(x: Status)
      requires Shaped(View())
      modifies this`status, this`overall
      ensures View() == Record(old(View()), x)
    {
      status := status[head := Some(x)];
      overall := Or(overall, x);
    }

    // The process of the head has ended.
    method End(x: Status)
      requires Shaped(View()) && running
      modifies this
      ensures View() == Step(old(View()), Exit(x))
    {
      match stages[head].value {
        case Rcp =>
          Settle(x);
          if x == 0 && head + 1 < nodes {
            SpawnOn(head);
          } else {
            SpawnNext();
          }
        case Rsh =>
          Settle(Or(if status[head] == None then 4 else status[head].value, x));
          running := false;
        case Rgang =>
          if status[head] != None {
            FillIn();
          } else {
            if !copy {
              Settle(Or(2, x));
            }
            SpawnNext();
          }
      }
    }

    method SpawnNext()
      requires Shaped(View())
      modifies this
      ensures View() == MoveOn(old(View()))
    {
      if head + 1 < nodes {
        SpawnOn(head + 1);
      } else {
        running := false;
      }
    }

    // Every node that is left without a status gets 3.
    method FillIn()
      requires Shaped(View())
      modifies this
      ensures View() == Delivered(old(View()))
    {
      var first := if copy then head + 1 else head;
      ghost var before, filled := status, FillFrom(status, first);
      for i := first to nodes
        invariant |status| == nodes
        invariant forall k :: 0 <= k < nodes ==> status[k] == if k < i then filled[k] else before[k]
        invariant head == old(head) && stages == old(stages) && running == old(running) && spawned == old(spawned)
        invariant OrFrom(filled, i, overall) == OrFrom(filled, first, old(overall))
      {
        if status[i] == None {
          status := status[i := Some(3)];
        }
        overall := Or(overall, status[i].value);
      }
      assert status == filled;
      running := false;
    }
  }

  // ----- a whole branch

  // Whatever its processes do, in whatever order: the statuses, the branch's part of the overall status,
  // and the nodes for which processes were started.
  method RunBranch(copy: bool, n: nat, events: seq<Event>) returns (b: Branch)
    requires n > 0 && Run(Start(copy, n), events)
    ensures fresh(b) && b.View() == After(Start(copy, n), events)
    ensures !b.running ==> |b.status| == n && forall k :: 0 <= k < n ==> b.status[k].Some?
    ensures !b.running ==> (b.overall == 0 <==> forall k :: 0 <= k < n ==> b.status[k] == Some(0))
    ensures !b.running ==> forall j: nat :: Bit(b.overall, j) <==> exists k :: 0 <= k < n && BitAt(b.status, k, j)
    ensures |b.status| == n && forall k ::
            0 <= k < n && b.status[k] == Some(0) ==> ReportedZero(Start(copy, n), events, k)
    ensures b.head < n && (!b.running ==> forall k :: 0 <= k < b.head ==> b.status[k] != Some(0))
    ensures forall i, j :: 0 <= i < j < |b.spawned| ==> b.spawned[i] <= b.spawned[j]
    ensures forall k :: multiset(b.spawned)[k] <= if copy then 2 else 1
    ensures CountEnds(events) == (if copy then 2 * n else n) ==> !b.running
  {
    b := new Branch(copy, n);
    assert events[0..] == events;
    for i := 0 to |events|
      invariant fresh(b) && Run(b.View(), events[i..]) && After(b.View(), events[i..]) == After(Start(copy, n), events)
    {
      assert events[i..][0] == events[i] && events[i..][1..] == events[i + 1..];
      Take(b, events[i]);
    }
    assert events[|events|..] == [];
    WholeBranch(copy, n, events);
  }

  method Take(b: Branch, e: Event)
    requires Shaped(b.View()) && Possible(b.View(), e)
    modifies b
    ensures b.View() == Step(old(b.View()), e)
  {
    match e {
      case Results(loads) => b.AddResults(loads);
      case Line(value) => b.AddLine(value);
      case Exit(x) => b.End(x);
      case Expired => b.Expire();
    }
  }

  lemma WholeBranch(copy: bool, n: nat, events: seq<Event>)
    requires n > 0 && Run(Start(copy, n), events)
    ensures var st := After(Start(copy, n), events);
            && |st.status| == n && st.head < n
            && (!st.running ==> (forall k :: 0 <= k < n ==> st.status[k].Some?))
            && (!st.running ==> forall k :: 0 <= k < st.head ==> st.status[k] != Some(0))
            && (!st.running ==> (st.overall == 0 <==> forall k :: 0 <= k < n ==> st.status[k] == Some(0)))
            && (!st.running ==>
                forall j: nat :: Bit(st.overall, j) <==> exists k :: 0 <= k < n && BitAt(st.status, k, j))
            && (forall k :: 0 <= k < n && st.status[k] == Some(0) ==> ReportedZero(Start(copy, n), events, k))
            && (CountEnds(events) == (if copy then 2 * n else n) ==> !st.running)
            && (forall i, j :: 0 <= i < j < |st.spawned| ==> st.spawned[i] <= st.spawned[j])
            && (forall k :: multiset(st.spawned)[k] <= if copy then 2 else 1)
  {
    StartInv(copy, n);
    RunInv(Start(copy, n), events);
    RunNodes(Start(copy, n), events);
    if !After(Start(copy, n), events).running {
      EveryNodeHasStatus(copy, n, events);
      OverallBits(copy, n, events);
    }
    NoFalseSuccess(copy, n, events);
    HeadsMoveForward(copy, n, events);
    BranchEnds(copy, n, events);
  }
}
