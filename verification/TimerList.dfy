/** The list of connection timeouts, kept in the order in which they expire. */
module TimerList {
  import opened Wrappers

  datatype Timer = Timer(expires: real, branch: nat)

  ghost predicate Sorted(l: seq<Timer>) {
    forall i, j :: 0 <= i < j < |l| ==> l[i].expires <= l[j].expires
  }

  // Where a timer belongs: after all that expire no later.
  ghost predicate Belongs(l: seq<Timer>, t: Timer, at: nat) {
    && at <= |l|
    && (forall i :: 0 <= i < at ==> l[i].expires <= t.expires)
    && (forall i :: at <= i < |l| ==> t.expires < l[i].expires)
  }

  // The timer put in its place, from the back of the list.
  function Insert(l: seq<Timer>, t: Timer): seq<Timer> {
    if l == [] || l[|l| - 1].expires <= t.expires then l + [t]
    else Insert(l[..|l| - 1], t) + [l[|l| - 1]]
  }

  lemma {:induction false} InsertAt(l: seq<Timer>, t: Timer, at: nat)
    requires Belongs(l, t, at)
    ensures Insert(l, t) == l[..at] + [t] + l[at..]
    decreases |l|
  {
    if at < |l| {
      var init := l[..|l| - 1];
      InsertAt(init, t, at);
      assert init[..at] == l[..at] && init[at..] + [l[|l| - 1]] == l[at..];
    }
  }

  lemma {:induction false} PlaceExists(l: seq<Timer>, t: Timer) returns (at: nat)
    requires Sorted(l)
    ensures Belongs(l, t, at)
    decreases |l|
  {
    if l == [] || l[|l| - 1].expires <= t.expires { at := |l|; } else { at := PlaceExists(l[..|l| - 1], t); }
  }

  lemma InsertKeepsOrder(l: seq<Timer>, t: Timer)
    requires Sorted(l)
    ensures Sorted(Insert(l, t)) && multiset(Insert(l, t)) == multiset(l) + multiset{t}
  {
    var at := PlaceExists(l, t);
    InsertAt(l, t, at);
    InPlace(l, t, at);
  }

  lemma InPlace(l: seq<Timer>, t: Timer, at: nat)
    requires Sorted(l) && Belongs(l, t, at)
    ensures var r := l[..at] + [t] + l[at..]; Sorted(r) && multiset(r) == multiset(l) + multiset{t}
  {
    assert l == l[..at] + l[at..];
  }

  // The list without the first timer of a branch, if it has one.
  function Cancel(l: seq<Timer>, branch: nat): seq<Timer> {
    if l == [] then []
    else if l[0].branch == branch then l[1..]
    else [l[0]] + Cancel(l[1..], branch)
  }

  function OfOthers(l: seq<Timer>, branch: nat): seq<Timer> {
    if l == [] then [] else (if l[0].branch == branch then [] else [l[0]]) + OfOthers(l[1..], branch)
  }

  function OfBranch(l: seq<Timer>, branch: nat): seq<Timer> {
    if l == [] then [] else (if l[0].branch == branch then [l[0]] else []) + OfBranch(l[1..], branch)
  }

  // Cancelling takes away the first timer of the branch and nothing else, and keeps the order.
  lemma CancelTakesOne(l: seq<Timer>, branch: nat)
    ensures OfOthers(Cancel(l, branch), branch) == OfOthers(l, branch)
    ensures OfBranch(Cancel(l, branch), branch) == if OfBranch(l, branch) == [] then [] else OfBranch(l, branch)[1..]
    ensures Sorted(l) ==> Sorted(Cancel(l, branch))
    ensures forall t :: t in Cancel(l, branch) ==> t in l
  {
    CancelSplits(l, branch);
    CancelKeeps(l, branch);
    if Sorted(l) { CancelSorted(l, branch); }
  }

  lemma {:induction false} CancelSplits(l: seq<Timer>, branch: nat)
    ensures OfOthers(Cancel(l, branch), branch) == OfOthers(l, branch)
    ensures OfBranch(Cancel(l, branch), branch) == if OfBranch(l, branch) == [] then [] else OfBranch(l, branch)[1..]
    decreases |l|
  {
    if l != [] {
      CancelSplits(l[1..], branch);
      var rest := Cancel(l[1..], branch);
      assert ([l[0]] + rest)[1..] == rest;
    }
  }

  lemma {:induction false} CancelKeeps(l: seq<Timer>, branch: nat)
    ensures forall t :: t in Cancel(l, branch) ==> t in l
    decreases |l|
  {
    if l != [] { CancelKeeps(l[1..], branch); }
  }

  lemma {:induction false} CancelSorted(l: seq<Timer>, branch: nat)
    requires Sorted(l)
    ensures Sorted(Cancel(l, branch))
    decreases |l|
  {
    if l != [] {
      CancelSorted(l[1..], branch);
      CancelKeeps(l[1..], branch);
      assert l == [l[0]] + l[1..];
      FirstSorted(l[0], l[1..], Cancel(l[1..], branch));
    }
  }

  lemma FirstSorted(t: Timer, l: seq<Timer>, rest: seq<Timer>)
    requires Sorted([t] + l) && Sorted(rest) && forall x :: x in rest ==> x in l
    ensures Sorted([t] + rest)
  {
    var whole := [t] + l;
    forall x | x in l ensures t.expires <= x.expires {
      var i :| 0 <= i < |l| && l[i] == x;
      assert whole[0] == t && whole[i + 1] == x;
    }
    assert forall i :: 0 <= i < |rest| ==> rest[i] in rest;
  }

  // ----- runs

  datatype Op = Add(branch: nat, now: real, period: real) | CancelFor(branch: nat) | Expire

  // timeout_add searches for the place only in copy mode, where two periods are in use.
  function Apply(copy: bool, l: seq<Timer>, op: Op): seq<Timer> {
    match op
    case Add(branch, now, period) =>
      var t := Timer(now + period, branch);
      if copy && l != [] then Insert(l, t) else l + [t]
    case CancelFor(branch) => Cancel(l, branch)
    case Expire => if l == [] then [] else l[1..]
  }

  function After(copy: bool, l: seq<Timer>, ops: seq<Op>): seq<Timer>
    decreases |ops|
  {
    if ops == [] then l else After(copy, Apply(copy, l, ops[0]), ops[1..])
  }

  // The clock does not go back, and outside copy mode there is one period only.
  ghost predicate Timely(copy: bool, clock: real, period: real, ops: seq<Op>)
    decreases |ops|
  {
    ops == [] ||
    match ops[0]
    case Add(_, now, p) => clock <= now && (copy || p == period) && Timely(copy, now, period, ops[1..])
    case _ => Timely(copy, clock, period, ops[1..])
  }

  // Outside copy mode, nothing expires later than what is added next.
  ghost predicate Inv(copy: bool, clock: real, period: real, l: seq<Timer>) {
    Sorted(l) && (copy || forall t :: t in l ==> t.expires <= clock + period)
  }

  lemma AddInv(copy: bool, clock: real, period: real, l: seq<Timer>, t: Timer)
    requires Inv(copy, clock, period, l) && (copy || t.expires == clock + period)
    ensures var r := if copy && l != [] then Insert(l, t) else l + [t]; Inv(copy, clock, period, r) && r == Insert(l, t)
  {
    InsertKeepsOrder(l, t);
    if !copy { Appended(l, t); }
  }

  lemma Appended(l: seq<Timer>, t: Timer)
    requires forall x :: x in l ==> x.expires <= t.expires
    ensures Insert(l, t) == l + [t]
  {
  }

  function ClockAfter(clock: real, op: Op): real {
    if op.Add? then op.now else clock
  }

  lemma OpInv(copy: bool, clock: real, period: real, l: seq<Timer>, op: Op)
    requires Inv(copy, clock, period, l) && (op.Add? ==> clock <= op.now && (copy || op.period == period))
    ensures Inv(copy, ClockAfter(clock, op), period, Apply(copy, l, op)) && Apply(copy, l, op) == Apply(true, l, op)
  {
    match op
    case Add(branch, now, p) => AddInv(copy, now, period, l, Timer(now + p, branch));
    case CancelFor(branch) => CancelTakesOne(l, branch);
    case Expire =>
  }

  // After every run the timers are in order, and the mode makes no difference: where the program
  // only appends, the search would have found the end.
  lemma {:induction false} AlwaysSorted(copy: bool, clock: real, period: real, l: seq<Timer>, ops: seq<Op>)
    requires Inv(copy, clock, period, l) && Timely(copy, clock, period, ops)
    ensures Sorted(After(copy, l, ops)) && After(copy, l, ops) == After(true, l, ops)
    decreases |ops|
  {
    if ops != [] {
      OpInv(copy, clock, period, l, ops[0]);
      AlwaysSorted(copy, ClockAfter(clock, ops[0]), period, Apply(copy, l, ops[0]), ops[1..]);
    }
  }

  // So the timer that is taken when time has run out is one that expires first.
  lemma HeadExpiresFirst(copy: bool, clock: real, period: real, ops: seq<Op>, t: Timer)
    requires Timely(copy, clock, period, ops) && t in After(copy, [], ops)
    ensures After(copy, [], ops)[0].expires <= t.expires
  {
    AlwaysSorted(copy, clock, period, [], ops);
  }

  // ----- the list of the program

  class Timeouts {
    const copy: bool
    var timers: seq<Timer>

    constructor (copy: bool)
      ensures this.copy == copy && timers == []
    {
      this.copy, timers := copy, [];
    }

    // timeout_add
    method Add(branch: nat, now: real, period: real)
      requires copy ==> Sorted(timers)
      modifies this`timers
      ensures timers == Apply(copy, old(timers), Op.Add(branch, now, period))
    {
      var t := Timer(now + period, branch);
      if !copy || timers == [] {
        timers := timers + [t];
        return;
      }
      var low, high := 0, |timers| - 1;
      var mid := low + (high - low) / 2;
      while mid != high
        invariant 0 <= low <= mid <= high < |timers| && mid == low + (high - low) / 2
        invariant forall i :: 0 <= i < low ==> timers[i].expires <= t.expires
        invariant forall i :: high < i < |timers| ==> t.expires < timers[i].expires
        invariant high < |timers| - 1 ==> t.expires < timers[high].expires
        decreases high - low
      {
        if t.expires < timers[mid].expires {
          high := mid;
        } else {
          low := mid + 1;
        }
        mid := low + (high - low) / 2;
      }
      var at := if t.expires < timers[mid].expires then mid else mid + 1;
      InsertAt(timers, t, at);
      timers := timers[..at] + [t] + timers[at..];
    }

    // timeout_cancel
    method CancelFirst(branch: nat)
      modifies this`timers
      ensures timers == Apply(copy, old(timers), CancelFor(branch))
    {
      var n := |timers|;
      for idx := 0 to n
        invariant timers == old(timers)
        invariant Cancel(timers, branch) == timers[..idx] + Cancel(timers[idx..], branch)
      {
        if timers[idx].branch == branch {
          timers := timers[..idx] + timers[idx + 1..];
          assert old(timers)[idx..][1..] == old(timers)[idx + 1..];
          return;
        }
        assert timers[idx..][1..] == timers[idx + 1..];
        assert timers[..idx + 1] == timers[..idx] + [timers[idx]];
      }
      assert timers[..n] == timers;
    }

    // The timer at the head has run out.
    method Pop() returns (branch: nat)
      requires timers != []
      modifies this`timers
      ensures branch == old(timers)[0].branch && timers == Apply(copy, old(timers), Expire)
    {
      branch := timers[0].branch;
      timers := timers[1..];
    }
  }

  // ----- a whole run of the list

  // In a timely run the list is what searching for every place would have made it, and each timer that
  // fired was one that expires first of those in the list at that time.
  method RunTimeouts(copy: bool, clock: real, period: real, ops: seq<Op>)
    returns (list: Timeouts, fired: seq<nat>, ghost waiting: seq<seq<Timer>>)
    requires Timely(copy, clock, period, ops)
    ensures fresh(list) && list.timers == After(true, [], ops) && Sorted(list.timers)
    ensures |fired| == |waiting| && forall k :: 0 <= k < |fired| ==> FirstOf(waiting[k], fired[k])
  {
    list := new Timeouts(copy);
    fired, waiting := [], [];
    ghost var now := clock;
    assert ops[0..] == ops;
    for i := 0 to |ops|
      invariant fresh(list) && list.copy == copy && Inv(copy, now, period, list.timers)
      invariant Timely(copy, now, period, ops[i..]) && After(copy, list.timers, ops[i..]) == After(copy, [], ops)
      invariant |fired| == |waiting| && forall k :: 0 <= k < |fired| ==> FirstOf(waiting[k], fired[k])
    {
      OneMoreOp(copy, now, period, list.timers, ops, i);
      ghost var was := list.timers;
      var branch := Take(list, ops[i]);
      if branch.Some? {
        fired, waiting := fired + [branch.value], waiting + [was];
      }
      now := ClockAfter(now, ops[i]);
    }
    assert ops[|ops|..] == [];
    AlwaysSorted(copy, clock, period, [], ops);
  }

  lemma OneMoreOp(copy: bool, clock: real, period: real, l: seq<Timer>, ops: seq<Op>, i: nat)
    requires i < |ops| && Inv(copy, clock, period, l) && Timely(copy, clock, period, ops[i..])
    ensures var now, next := ClockAfter(clock, ops[i]), Apply(copy, l, ops[i]);
            && Inv(copy, now, period, next) && Timely(copy, now, period, ops[i + 1..])
            && After(copy, l, ops[i..]) == After(copy, next, ops[i + 1..])
  {
    assert ops[i..][0] == ops[i] && ops[i..][1..] == ops[i + 1..];
    OpInv(copy, clock, period, l, ops[i]);
  }

  method Take(list: Timeouts, op: Op) returns (fired: Option<nat>)
    requires Sorted(list.timers)
    modifies list`timers
    ensures list.timers == Apply(list.copy, old(list.timers), op)
    ensures fired.Some? ==> FirstOf(old(list.timers), fired.value)
  {
    fired := None;
    match op {
      case Add(branch, when, p) => list.Add(branch, when, p);
      case CancelFor(branch) => list.CancelFirst(branch);
      case Expire =>
        if list.timers != [] {
          HeadIsFirst(list.timers);
          var branch := list.Pop();
          fired := Some(branch);
        }
    }
  }

  lemma HeadIsFirst(l: seq<Timer>)
    requires Sorted(l) && l != []
    ensures FirstOf(l, l[0].branch)
  {
    assert l[0] in l;
  }

  // A timer of the branch is in the list and none there expires before it.
  ghost predicate FirstOf(l: seq<Timer>, branch: nat) {
    exists t :: t in l && t.branch == branch && forall x :: x in l ==> t.expires <= x.expires
  }
}
