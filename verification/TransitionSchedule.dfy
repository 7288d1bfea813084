/** How `do_command` sends one transition: buckets of processes in a fixed order, one thread a
    process, and a join after every bucket. */
module TransitionSchedule {
  import opened Wrappers
  import opened SubsystemGraph
  import opened SubsystemOrder
  import opened Processes

  datatype Command = Init | Start | Stop | Pause | Resume | Shutdown

  // Stop, Pause and Shutdown travel with the data; the others against it.
  predicate Downstream(c: Command) {
    c == Stop || c == Pause || c == Shutdown
  }

  function Reverse<T>(s: seq<T>): (r: seq<T>)
    ensures |r| == |s| && forall i :: 0 <= i < |s| ==> r[i] == s[|s| - 1 - i]
  {
    seq(|s|, i requires 0 <= i < |s| => s[|s| - 1 - i])
  }

  const KINDS: seq<ProcType> := [RoutingManager, Dispatcher, DataLogger, EventBuilder, BoardReader]

  function KindsInOrder(c: Command): seq<ProcType> {
    if Downstream(c) then Reverse(KINDS) else KINDS
  }

  // A bucket: the threads started together.  `at` and `kindAt` are positions in the two orders.
  datatype Bucket = Bucket(at: nat, kindAt: nat, priority: int, members: seq<nat>)

  predicate Earlier(a: Bucket, b: Bucket) {
    || a.at < b.at
    || (a.at == b.at && a.kindAt < b.kindAt)
    || (a.at == b.at && a.kindAt == b.kindAt && a.priority < b.priority)
  }

  predicate Belongs(p: Process, ss: Id, kind: ProcType, priority: int) {
    p.kind == kind && p.priority == priority && p.subsystem == ss
  }

  // `members` is exactly the matching processes, in list order.
  ghost predicate Selects(procs: seq<Process>, ss: Id, kind: ProcType, priority: int, members: seq<nat>) {
    && (forall i: int :: i in members <==> 0 <= i < |procs| && Belongs(procs[i], ss, kind, priority))
    && (forall a, b :: 0 <= a < b < |members| ==> members[a] < members[b])
  }

  ghost predicate IsBucket(procs: seq<Process>, subs: seq<Id>, kinds: seq<ProcType>, b: Bucket) {
    && b.at < |subs| && b.kindAt < |kinds| && b.members != []
    && Selects(procs, subs[b.at], kinds[b.kindAt], b.priority, b.members)
  }

  ghost predicate Contains(plan: seq<Bucket>, i: nat) {
    exists b :: 0 <= b < |plan| && i in plan[b].members
  }

  // The buckets of one command over the subsystem order `subs`.
  ghost predicate IsPlan(procs: seq<Process>, subs: seq<Id>, kinds: seq<ProcType>, plan: seq<Bucket>) {
    && (forall b :: 0 <= b < |plan| ==> IsBucket(procs, subs, kinds, plan[b]))
    && (forall a, b :: 0 <= a < b < |plan| ==> Earlier(plan[a], plan[b]))
    && (forall i :: 0 <= i < |procs| && procs[i].subsystem in subs && procs[i].kind in kinds ==> Contains(plan, i))
  }

  // ----- building the plan

  // sorted(priorities_used.keys())
  method PrioritiesUsed(procs: seq<Process>, ss: Id, kind: ProcType) returns (used: seq<int>)
    ensures Rising(used)
    ensures forall x :: x in used <==> exists i :: 0 <= i < |procs| && Belongs(procs[i], ss, kind, x)
  {
    used := [];
    for k := 0 to |procs|
      invariant Rising(used)
      invariant forall x :: x in used <==> exists i :: 0 <= i < k && Belongs(procs[i], ss, kind, x)
    {
      if procs[k].kind == kind && procs[k].subsystem == ss {
        assert Belongs(procs[k], ss, kind, procs[k].priority);
        InsertKeepsRising(used, procs[k].priority);
        used := InsertSorted(used, procs[k].priority);
      }
    }
  }

  ghost predicate Rising(s: seq<int>) {
    forall a, b :: 0 <= a < b < |s| ==> s[a] < s[b]
  }

  function InsertSorted(s: seq<int>, x: int): seq<int> {
    if s == [] || x < s[0] then [x] + s
    else if x == s[0] then s
    else [s[0]] + InsertSorted(s[1..], x)
  }

  lemma {:induction false} InsertKeepsRising(s: seq<int>, x: int)
    requires Rising(s)
    ensures Rising(InsertSorted(s, x)) && forall y :: y in InsertSorted(s, x) <==> y in s || y == x
  {
    if s != [] && x > s[0] {
      InsertKeepsRising(s[1..], x);
      assert forall y :: y in s <==> y == s[0] || y in s[1..];
      FirstOfRising(s[0], InsertSorted(s[1..], x));
    }
  }

  lemma FirstOfRising(x: int, s: seq<int>)
    requires Rising(s) && forall y :: y in s ==> x < y
    ensures Rising([x] + s)
  {
    assert forall a :: 0 <= a < |s| ==> s[a] in s;
  }

  method Members(procs: seq<Process>, ss: Id, kind: ProcType, priority: int) returns (members: seq<nat>)
    ensures Selects(procs, ss, kind, priority, members)
  {
    members := [];
    for k := 0 to |procs|
      invariant forall i: int :: i in members <==> 0 <= i < k && Belongs(procs[i], ss, kind, priority)
      invariant forall a :: 0 <= a < |members| ==> members[a] < k
      invariant forall a, b :: 0 <= a < b < |members| ==> members[a] < members[b]
    {
      if Belongs(procs[k], ss, kind, priority) { members := members + [k]; }
    }
  }

  // The buckets of one subsystem and one process type, by rising priority.
  method BucketsOf(procs: seq<Process>, subs: seq<Id>, kinds: seq<ProcType>, at: nat, kindAt: nat)
    returns (part: seq<Bucket>)
    requires at < |subs| && kindAt < |kinds|
    ensures forall b ::
            0 <= b < |part| ==> IsBucket(procs, subs, kinds, part[b]) && part[b].at == at && part[b].kindAt == kindAt
    ensures forall a, b :: 0 <= a < b < |part| ==> Earlier(part[a], part[b])
    ensures forall i ::
            0 <= i < |procs| && procs[i].subsystem == subs[at] && procs[i].kind == kinds[kindAt] ==> Contains(part, i)
  {
    var used := PrioritiesUsed(procs, subs[at], kinds[kindAt]);
    part := [];
    for k := 0 to |used|
      invariant |part| == k
      invariant forall b :: 0 <= b < k ==>
                  && IsBucket(procs, subs, kinds, part[b])
                  && part[b].at == at && part[b].kindAt == kindAt && part[b].priority == used[b]
    {
      var members := Members(procs, subs[at], kinds[kindAt], used[k]);
      assert used[k] in used;
      ghost var i :| 0 <= i < |procs| && Belongs(procs[i], subs[at], kinds[kindAt], used[k]);
      assert i in members;
      part := part + [Bucket(at, kindAt, used[k], members)];
    }
    forall i | 0 <= i < |procs| && procs[i].subsystem == subs[at] && procs[i].kind == kinds[kindAt]
      ensures Contains(part, i)
    {
      assert Belongs(procs[i], subs[at], kinds[kindAt], procs[i].priority);
      assert procs[i].priority in used;
      var b :| 0 <= b < |used| && used[b] == procs[i].priority;
      assert i in part[b].members;
    }
  }

  // Progress of the two outer loops: subsystems before `at` are planned for all types, subsystem
  // `at` for the types before `kindAt`, and nothing beyond.
  ghost predicate PlannedUpTo(procs: seq<Process>, subs: seq<Id>, kinds: seq<ProcType>, plan: seq<Bucket>, at: nat,
                              kindAt: nat) {
    && (forall b :: 0 <= b < |plan| ==>
          IsBucket(procs, subs, kinds, plan[b]) && (plan[b].at < at || (plan[b].at == at && plan[b].kindAt < kindAt)))
    && (forall a, b :: 0 <= a < b < |plan| ==> Earlier(plan[a], plan[b]))
    && (forall i, s, k | 0 <= i < |procs| && 0 <= s < |subs| && 0 <= k < |kinds|
                         && procs[i].subsystem == subs[s] && procs[i].kind == kinds[k]
                         && (s < at || (s == at && k < kindAt)) :: Contains(plan, i))
  }

  lemma AppendPart(procs: seq<Process>, subs: seq<Id>, kinds: seq<ProcType>, plan: seq<Bucket>, at: nat, kindAt: nat,
                   part: seq<Bucket>)
    requires PlannedUpTo(procs, subs, kinds, plan, at, kindAt) && at < |subs| && kindAt < |kinds|
    requires forall b ::
             0 <= b < |part| ==> IsBucket(procs, subs, kinds, part[b]) && part[b].at == at && part[b].kindAt == kindAt
    requires forall a, b :: 0 <= a < b < |part| ==> Earlier(part[a], part[b])
    requires forall i ::
             0 <= i < |procs| && procs[i].subsystem == subs[at] && procs[i].kind == kinds[kindAt] ==> Contains(part, i)
    ensures PlannedUpTo(procs, subs, kinds, plan + part, at, kindAt + 1)
  {
    var all := plan + part;
    forall i, s, k | 0 <= i < |procs| && 0 <= s < |subs| && 0 <= k < |kinds|
                     && procs[i].subsystem == subs[s] && procs[i].kind == kinds[k]
                     && (s < at || (s == at && k < kindAt + 1))
      ensures Contains(all, i)
    {
      if s == at && k == kindAt {
        var b :| 0 <= b < |part| && i in part[b].members;
        assert i in all[|plan| + b].members;
      } else {
        var b :| 0 <= b < |plan| && i in plan[b].members;
        assert i in all[b].members;
      }
    }
  }

  lemma NextSubsystemRow(procs: seq<Process>, subs: seq<Id>, kinds: seq<ProcType>, plan: seq<Bucket>, at: nat)
    requires PlannedUpTo(procs, subs, kinds, plan, at, |kinds|)
    ensures PlannedUpTo(procs, subs, kinds, plan, at + 1, 0)
  {
  }

  method BuildPlan(procs: seq<Process>, subs: seq<Id>, kinds: seq<ProcType>) returns (plan: seq<Bucket>)
    ensures IsPlan(procs, subs, kinds, plan)
  {
    plan := [];
    for at := 0 to |subs|
      invariant PlannedUpTo(procs, subs, kinds, plan, at, 0)
    {
      for kindAt := 0 to |kinds|
        invariant PlannedUpTo(procs, subs, kinds, plan, at, kindAt)
      {
        var part := BucketsOf(procs, subs, kinds, at, kindAt);
        AppendPart(procs, subs, kinds, plan, at, kindAt, part);
        plan := plan + part;
      }
      NextSubsystemRow(procs, subs, kinds, plan, at);
    }
    forall i | 0 <= i < |procs| && procs[i].subsystem in subs && procs[i].kind in kinds ensures Contains(plan, i) {
      var s :| 0 <= s < |subs| && subs[s] == procs[i].subsystem;
      var k :| 0 <= k < |kinds| && kinds[k] == procs[i].kind;
    }
  }

  // The plan of a command: None when ordering the subsystems never ends.
  method PlanCommand(g: Subsystems, procs: seq<Process>, c: Command) returns (r: Option<(seq<Id>, seq<Bucket>)>)
    requires g.Valid()
    ensures r.Some? <==> Orderable(g)
    ensures r.Some? ==> IsCommandPlan(g, procs, c, r.value.0, r.value.1)
    ensures r.Some? && (c == Stop || c == Pause || c == Shutdown) ==> FeedersFirst(g, procs, r.value.1)
    ensures r.Some? && (c == Init || c == Start || c == Resume) ==> FeedersLast(g, procs, r.value.1)
  {
    var order := OrderSubsystems(g);
    if order.None? { return None; }
    var subs := Oriented(c, order.value);
    var plan := BuildPlan(procs, subs, KindsInOrder(c));
    assert Downstream(c) || Reverse(subs) == order.value;
    PlanFollowsData(g, procs, c, subs, plan);
    r := Some((subs, plan));
  }

  function Oriented(c: Command, subs: seq<Id>): seq<Id> {
    if Downstream(c) then subs else Reverse(subs)
  }

  // `subs` is a sources-first order of the graph, or its reverse, and `plan` its buckets.
  ghost predicate IsCommandPlan(g: Subsystems, procs: seq<Process>, c: Command, subs: seq<Id>, plan: seq<Bucket>) {
    && Lists(g, Oriented(c, subs)) && SourcesFirst(g, Oriented(c, subs))
    && IsPlan(procs, subs, KindsInOrder(c), plan)
  }

  // ----- what a plan says

  lemma EveryKindIsListed(c: Command, kind: ProcType)
    ensures kind in KindsInOrder(c)
  {
    var k := match kind
      case RoutingManager => 0 case Dispatcher => 1 case DataLogger => 2 case EventBuilder => 3 case BoardReader => 4;
    assert KINDS[k] == kind;
    assert KindsInOrder(c)[if Downstream(c) then 4 - k else k] == kind;
  }

  // Each process is in exactly one bucket if its subsystem is known, and in none otherwise.
  lemma ExactlyOneBucket(g: Subsystems, procs: seq<Process>, c: Command, subs: seq<Id>, plan: seq<Bucket>, i: nat)
    requires IsCommandPlan(g, procs, c, subs, plan) && i < |procs|
    ensures Contains(plan, i) <==> procs[i].subsystem in g.table
    ensures forall a, b :: 0 <= a < |plan| && 0 <= b < |plan| && i in plan[a].members && i in plan[b].members ==> a == b
  {
    EveryKindIsListed(c, procs[i].kind);
    OrientedLists(g, c, subs);
    forall a, b | 0 <= a < |plan| && 0 <= b < |plan| && i in plan[a].members && i in plan[b].members ensures a == b {
      SameKey(g, procs, c, subs, plan[a], plan[b], i);
      assert !Earlier(plan[a], plan[b]) && !Earlier(plan[b], plan[a]);
    }
  }

  lemma OrientedLists(g: Subsystems, c: Command, subs: seq<Id>)
    requires Lists(g, Oriented(c, subs))
    ensures Lists(g, subs)
  {
    if !Downstream(c) {
      var o := Reverse(subs);
      forall x ensures x in subs <==> x in o {
        if x in subs { var k :| 0 <= k < |subs| && subs[k] == x; assert o[|subs| - 1 - k] == x; }
      }
      forall i, j | 0 <= i < j < |subs| ensures subs[i] != subs[j] {
        assert o[|subs| - 1 - j] != o[|subs| - 1 - i];
      }
    }
  }

  lemma SameKey(g: Subsystems, procs: seq<Process>, c: Command, subs: seq<Id>, a: Bucket, b: Bucket, i: nat)
    requires NoDuplicates(subs) && i < |procs| && i in a.members && i in b.members
    requires IsBucket(procs, subs, KindsInOrder(c), a) && IsBucket(procs, subs, KindsInOrder(c), b)
    ensures a.at == b.at && a.kindAt == b.kindAt && a.priority == b.priority
  {
    KindsDistinct(c);
    assert subs[a.at] == subs[b.at];
    assert KindsInOrder(c)[a.kindAt] == KindsInOrder(c)[b.kindAt];
  }

  lemma KindsDistinct(c: Command)
    ensures NoDuplicates(KindsInOrder(c))
  {
  }

  // A process whose subsystem comes first in the plan is in an earlier bucket.
  lemma EarlierSubsystemEarlierBucket(procs: seq<Process>, subs: seq<Id>, kinds: seq<ProcType>, plan: seq<Bucket>,
                                      i: nat, j: nat, a: nat, b: nat)
    requires IsPlan(procs, subs, kinds, plan) && NoDuplicates(subs)
    requires i < |procs| && j < |procs| && a < |plan| && b < |plan|
    requires i in plan[a].members && j in plan[b].members
    requires exists s, t :: 0 <= s < t < |subs| && subs[s] == procs[i].subsystem && subs[t] == procs[j].subsystem
    ensures a < b
  {
    var s, t :| 0 <= s < t < |subs| && subs[s] == procs[i].subsystem && subs[t] == procs[j].subsystem;
    assert IsBucket(procs, subs, kinds, plan[a]) && IsBucket(procs, subs, kinds, plan[b]);
    assert Belongs(procs[i], subs[plan[a].at], kinds[plan[a].kindAt], plan[a].priority);
    assert Belongs(procs[j], subs[plan[b].at], kinds[plan[b].kindAt], plan[b].priority);
    assert plan[a].at == s && plan[b].at == t;
    assert !Earlier(plan[b], plan[a]);
  }

  // ----- the plan and the flow of data

  lemma KnownIsPlanned(g: Subsystems, procs: seq<Process>, c: Command, subs: seq<Id>, plan: seq<Bucket>, i: nat)
    requires IsCommandPlan(g, procs, c, subs, plan) && i < |procs| && procs[i].subsystem in g.table
    ensures Contains(plan, i)
  {
    ExactlyOneBucket(g, procs, c, subs, plan, i);
  }

  // How far along the data path a type of process sits inside its subsystem.
  function Depth(kind: ProcType): nat {
    match kind
    case BoardReader => 0 case EventBuilder => 1 case DataLogger => 2 case Dispatcher => 3 case RoutingManager => 4
  }

  ghost predicate Upstream(g: Subsystems, i: Process, j: Process) {
    || Feeds(g, i.subsystem, j.subsystem)
    || (i.subsystem == j.subsystem && i.subsystem in g.table && Depth(i.kind) < Depth(j.kind))
  }

  // `i` must be done before `j` is told: `i` is upstream of `j` when the command travels with the
  // data and downstream of it otherwise; among equals, the lower priority number goes first.
  ghost predicate MustPrecede(g: Subsystems, c: Command, i: Process, j: Process) {
    || (if Downstream(c) then Upstream(g, i, j) else Upstream(g, j, i))
    || (i.subsystem == j.subsystem && i.subsystem in g.table && i.kind == j.kind && i.priority < j.priority)
  }

  lemma BucketBefore(g: Subsystems, procs: seq<Process>, c: Command, subs: seq<Id>, plan: seq<Bucket>, i: nat, j: nat,
                     b: nat)
    returns (a: nat)
    requires IsCommandPlan(g, procs, c, subs, plan) && i < |procs| && j < |procs|
    requires b < |plan| && j in plan[b].members
    requires MustPrecede(g, c, procs[i], procs[j])
    ensures a < b && i in plan[a].members
  {
    OrientedLists(g, c, subs);
    FeedersAreKnown(g, c, procs[i], procs[j]);
    KnownIsPlanned(g, procs, c, subs, plan, i);
    a :| 0 <= a < |plan| && i in plan[a].members;
    if procs[i].subsystem == procs[j].subsystem {
      NoSelfFeed(g, c, subs, procs[i].subsystem);
      SameSubsystemBefore(g, procs, c, subs, plan, i, j, a, b);
    } else {
      PrecedesInOrder(g, c, subs, procs[i], procs[j]);
      EarlierSubsystemEarlierBucket(procs, subs, KindsInOrder(c), plan, i, j, a, b);
    }
  }

  lemma NoSelfFeed(g: Subsystems, c: Command, subs: seq<Id>, x: Id)
    requires Lists(g, Oriented(c, subs)) && SourcesFirst(g, Oriented(c, subs))
    ensures !Feeds(g, x, x)
  {
    assert TopoOrder(g, Oriented(c, subs));
    OrderedIsAcyclic(g, Oriented(c, subs));
  }

  lemma KindPosition(c: Command, kind: ProcType, k: nat)
    requires k < 5 && KindsInOrder(c)[k] == kind
    ensures k == if Downstream(c) then Depth(kind) else 4 - Depth(kind)
  {
    assert KINDS[if Downstream(c) then 4 - k else k] == kind;
  }

  lemma SameSubsystemBefore(g: Subsystems, procs: seq<Process>, c: Command, subs: seq<Id>, plan: seq<Bucket>,
                            i: nat, j: nat, a: nat, b: nat)
    requires IsPlan(procs, subs, KindsInOrder(c), plan) && NoDuplicates(subs) && i < |procs| && j < |procs|
    requires a < |plan| && b < |plan| && i in plan[a].members && j in plan[b].members
    requires procs[i].subsystem == procs[j].subsystem && !Feeds(g, procs[i].subsystem, procs[j].subsystem)
    requires MustPrecede(g, c, procs[i], procs[j])
    ensures a < b
  {
    assert IsBucket(procs, subs, KindsInOrder(c), plan[a]) && IsBucket(procs, subs, KindsInOrder(c), plan[b]);
    KindPosition(c, procs[i].kind, plan[a].kindAt);
    KindPosition(c, procs[j].kind, plan[b].kindAt);
    assert subs[plan[a].at] == subs[plan[b].at];
    assert !Earlier(plan[b], plan[a]);
  }

  lemma FeedersAreKnown(g: Subsystems, c: Command, i: Process, j: Process)
    requires MustPrecede(g, c, i, j)
    ensures i.subsystem in g.table && j.subsystem in g.table
  {
    var (lo, hi) := if Downstream(c) then (i, j) else (j, i);
    if Feeds(g, lo.subsystem, hi.subsystem) {
      var p :| Walk(g, p) && |p| >= 2 && p[0] == hi.subsystem && p[|p| - 1] == lo.subsystem;
    }
  }

  lemma PrecedesInOrder(g: Subsystems, c: Command, subs: seq<Id>, i: Process, j: Process)
    requires Lists(g, Oriented(c, subs)) && SourcesFirst(g, Oriented(c, subs)) && MustPrecede(g, c, i, j)
    requires i.subsystem != j.subsystem
    ensures exists s, t :: 0 <= s < t < |subs| && subs[s] == i.subsystem && subs[t] == j.subsystem
  {
    FeedersAreKnown(g, c, i, j);
    var o := Oriented(c, subs);
    var s :| 0 <= s < |o| && o[s] == i.subsystem;
    var t :| 0 <= t < |o| && o[t] == j.subsystem;
    if Downstream(c) {
      FeederComesFirst(g, o, i.subsystem, j.subsystem, s, t);
    } else {
      FeederComesFirst(g, o, j.subsystem, i.subsystem, t, s);
      assert subs[|subs| - 1 - s] == i.subsystem && subs[|subs| - 1 - t] == j.subsystem;
    }
  }

  // A feeder's bucket comes before that of whom it feeds.
  ghost predicate FeedersFirst(g: Subsystems, procs: seq<Process>, plan: seq<Bucket>) {
    forall a, b, i, j | 0 <= a < |plan| && 0 <= b < |plan| && i in plan[a].members && j in plan[b].members ::
      i < |procs| && j < |procs| && (Upstream(g, procs[i], procs[j]) ==> a < b)
  }

  ghost predicate FeedersLast(g: Subsystems, procs: seq<Process>, plan: seq<Bucket>) {
    forall a, b, i, j | 0 <= a < |plan| && 0 <= b < |plan| && i in plan[a].members && j in plan[b].members ::
      i < |procs| && j < |procs| && (Upstream(g, procs[i], procs[j]) ==> b < a)
  }

  lemma PlanFollowsData(g: Subsystems, procs: seq<Process>, c: Command, subs: seq<Id>, plan: seq<Bucket>)
    requires IsCommandPlan(g, procs, c, subs, plan)
    ensures c == Stop || c == Pause || c == Shutdown ==> FeedersFirst(g, procs, plan)
    ensures c == Init || c == Start || c == Resume ==> FeedersLast(g, procs, plan)
  {
    forall a, b, i, j | 0 <= a < |plan| && 0 <= b < |plan| && i in plan[a].members && j in plan[b].members
      ensures i < |procs| && j < |procs|
      ensures Upstream(g, procs[i], procs[j]) ==> if c == Stop || c == Pause || c == Shutdown then a < b else b < a
    {
      assert IsBucket(procs, subs, KindsInOrder(c), plan[a]) && IsBucket(procs, subs, KindsInOrder(c), plan[b]);
      if Upstream(g, procs[i], procs[j]) {
        if c == Stop || c == Pause || c == Shutdown {
          OrderOfTwo(g, procs, c, subs, plan, i, j, a, b);
        } else {
          OrderOfTwo(g, procs, c, subs, plan, j, i, b, a);
        }
      }
    }
  }

  lemma OrderOfTwo(g: Subsystems, procs: seq<Process>, c: Command, subs: seq<Id>, plan: seq<Bucket>,
                   i: nat, j: nat, a: nat, b: nat)
    requires IsCommandPlan(g, procs, c, subs, plan) && i < |procs| && j < |procs| && a < |plan| && b < |plan|
    requires i in plan[a].members && j in plan[b].members && MustPrecede(g, c, procs[i], procs[j])
    ensures a < b
  {
    var first := BucketBefore(g, procs, c, subs, plan, i, j, b);
    ExactlyOneBucket(g, procs, c, subs, plan, i);
  }
}
