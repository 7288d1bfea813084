/** The order in which `do_command` walks the subsystems: sources before what they feed. */
module SubsystemOrder {
  import opened Wrappers
  import opened SubsystemGraph

  // `ss` passes the test of the ordering loop: striking one copy of every already ordered
  // subsystem from its source list leaves nothing, and it is not ordered yet.
  ghost predicate Eligible(g: Subsystems, ordered: seq<Id>, ss: Id) {
    ss in g.table && multiset(g.table[ss].sources) <= multiset(ordered) && ss !in ordered
  }

  // The loop takes the first eligible subsystem of the table, in table order.
  ghost predicate FirstEligible(g: Subsystems, ordered: seq<Id>, ss: Id) {
    exists k :: 0 <= k < |g.order| && g.order[k] == ss && Eligible(g, ordered, ss)
                && forall j :: 0 <= j < k ==> !Eligible(g, ordered, g.order[j])
  }

  // What the loop needs in order to end.
  ghost predicate Orderable(g: Subsystems) {
    Acyclic(g) && SourcesKnown(g) && SourcesDistinct(g)
  }

  // Every subsystem of `o` comes after all its sources, listed ones included.
  ghost predicate SourcesFirst(g: Subsystems, o: seq<Id>) {
    forall i, b :: 0 <= i < |o| && o[i] in g.table && b in g.table[o[i]].sources ==> b in o[..i]
  }

  // `o` lists every subsystem exactly once.
  ghost predicate Lists(g: Subsystems, o: seq<Id>) {
    NoDuplicates(o) && (forall x :: x in o <==> x in g.table)
  }

  function RemoveFirst(s: seq<Id>, x: Id): (r: seq<Id>)
    requires x in s
    ensures multiset(r) == multiset(s) - multiset{x}
  {
    if s[0] == x then
      assert s == [x] + s[1..]; s[1..]
    else
      assert s == [s[0]] + s[1..]; [s[0]] + RemoveFirst(s[1..], x)
  }

  // sources_copy after the inner loop of the ordering.
  method Strike(sources: seq<Id>, ordered: seq<Id>) returns (left: seq<Id>)
    ensures multiset(left) == multiset(sources) - multiset(ordered)
  {
    left := sources;
    for k := 0 to |ordered|
      invariant multiset(left) == multiset(sources) - multiset(ordered[..k])
    {
      assert ordered[..k + 1] == ordered[..k] + [ordered[k]];
      if ordered[k] in left {
        left := RemoveFirst(left, ordered[k]);
      } else {
        assert multiset(left)[ordered[k]] == 0;
      }
    }
    assert ordered[..|ordered|] == ordered;
  }

  // One pass of the `for` over the table: the subsystem it appends before breaking, if any.
  method NextSubsystem(g: Subsystems, ordered: seq<Id>) returns (next: Option<Id>)
    requires g.Valid()
    ensures next.Some? ==> FirstEligible(g, ordered, next.value)
    ensures next.None? ==> forall j :: 0 <= j < |g.order| ==> !Eligible(g, ordered, g.order[j])
  {
    for k := 0 to |g.order|
      invariant forall j :: 0 <= j < k ==> !Eligible(g, ordered, g.order[j])
    {
      var subsystem := g.order[k];
      var left := Strike(g.table[subsystem].sources, ordered);
      EmptyAfterStrike(g.table[subsystem].sources, ordered, left);
      if |left| == 0 && subsystem !in ordered {
        return Some(subsystem);
      }
    }
    next := None;
  }

  ghost predicate Greedy(g: Subsystems, o: seq<Id>) {
    forall i :: 0 <= i < |o| ==> FirstEligible(g, o[..i], o[i])
  }

  // None stands for a loop that never ends: a whole pass over the table that appends nothing
  // repeats itself forever.
  method OrderSubsystems(g: Subsystems) returns (o: Option<seq<Id>>)
    requires g.Valid()
    ensures o.Some? <==> Orderable(g)
    ensures o.Some? ==> Lists(g, o.value) && SourcesFirst(g, o.value) && Greedy(g, o.value)
  {
    var ordered: seq<Id> := [];
    while |ordered| < |g.order|
      invariant NoDuplicates(ordered) && forall x :: x in ordered ==> x in g.table
      invariant |ordered| <= |g.order|
      invariant Greedy(g, ordered)
    {
      var next := NextSubsystem(g, ordered);
      if next.None? {
        StuckIsNotOrderable(g, ordered);
        return None;
      }
      ExtendGreedy(g, ordered, next.value);
      ordered := ordered + [next.value];
      RoomForAll(g, ordered);
    }
    GreedyIsSourcesFirst(g, ordered);
    FullCovers(g, ordered);
    CompleteIsOrderable(g, ordered);
    o := Some(ordered);
  }

  // ----- facts about the loop

  lemma EmptyAfterStrike(sources: seq<Id>, ordered: seq<Id>, left: seq<Id>)
    requires multiset(left) == multiset(sources) - multiset(ordered)
    ensures |left| == 0 <==> multiset(sources) <= multiset(ordered)
  {
    if |left| > 0 {
      assert left[0] in multiset(left);
    } else {
      forall x ensures multiset(sources)[x] <= multiset(ordered)[x] { assert multiset(left)[x] == 0; }
    }
  }

  lemma ExtendGreedy(g: Subsystems, ordered: seq<Id>, ss: Id)
    requires Greedy(g, ordered) && FirstEligible(g, ordered, ss)
    ensures Greedy(g, ordered + [ss])
    ensures ss !in ordered && ss in g.table
  {
    var o := ordered + [ss];
    forall i | 0 <= i < |o| ensures FirstEligible(g, o[..i], o[i]) {
      assert o[..i] == if i < |ordered| then ordered[..i] else ordered;
    }
  }

  ghost function Elements(s: seq<Id>): (r: set<Id>)
    ensures forall x :: x in r <==> x in s
  {
    set x | x in s
  }

  lemma {:induction false} DistinctCount(s: seq<Id>)
    requires NoDuplicates(s)
    ensures |Elements(s)| == |s|
  {
    if |s| > 0 {
      var init := s[..|s| - 1];
      DistinctCount(init);
      assert Elements(s) == Elements(init) + {s[|s| - 1]};
    }
  }

  lemma {:induction false} DistinctOnce(s: seq<Id>, x: Id)
    requires NoDuplicates(s)
    ensures multiset(s)[x] == if x in s then 1 else 0
  {
    if |s| > 0 {
      var init := s[..|s| - 1];
      assert s == init + [s[|s| - 1]];
      DistinctOnce(init, x);
    }
  }

  lemma {:induction false} OnceIsDistinct(s: seq<Id>)
    requires forall x :: multiset(s)[x] <= 1
    ensures NoDuplicates(s)
  {
    forall i, j | 0 <= i < j < |s| ensures s[i] != s[j] {
      assert s == s[..j] + s[j..];
      assert s[..j][i] == s[i] && s[j..][0] == s[j];
      assert multiset(s)[s[j]] == multiset(s[..j])[s[j]] + multiset(s[j..])[s[j]];
      assert s[j] in multiset(s[j..]);
      assert s[i] in multiset(s[..j]);
    }
  }

  lemma RoomForAll(g: Subsystems, ordered: seq<Id>)
    requires g.Valid() && NoDuplicates(ordered) && forall x :: x in ordered ==> x in g.table
    ensures |ordered| <= |g.order|
  {
    DistinctCount(ordered);
    DistinctCount(g.order);
    SubsetIsSmaller(Elements(ordered), Elements(g.order));
  }

  lemma SubsetIsSmaller(a: set<Id>, b: set<Id>)
    requires a <= b
    ensures |a| <= |b|
    ensures |a| == |b| ==> a == b
  {
    assert b == a + (b - a);
  }

  lemma FullCovers(g: Subsystems, ordered: seq<Id>)
    requires g.Valid() && NoDuplicates(ordered) && forall x :: x in ordered ==> x in g.table
    requires |ordered| >= |g.order|
    ensures Lists(g, ordered)
  {
    DistinctCount(ordered);
    DistinctCount(g.order);
    SubsetIsSmaller(Elements(ordered), Elements(g.order));
  }

  lemma GreedyIsSourcesFirst(g: Subsystems, o: seq<Id>)
    requires Greedy(g, o)
    ensures SourcesFirst(g, o)
  {
    forall i, b | 0 <= i < |o| && o[i] in g.table && b in g.table[o[i]].sources ensures b in o[..i] {
      assert Eligible(g, o[..i], o[i]);
      assert b in multiset(g.table[o[i]].sources);
    }
  }

  // With a cycle, an unknown source or a source listed twice the loop cannot have finished.
  lemma CompleteIsOrderable(g: Subsystems, o: seq<Id>)
    requires Lists(g, o) && SourcesFirst(g, o)
    requires Greedy(g, o)
    ensures Orderable(g)
  {
    assert TopoOrder(g, o);
    OrderedIsAcyclic(g, o);
    forall a | a in g.table
      ensures NoDuplicates(g.table[a].sources) && forall b :: b in g.table[a].sources ==> b in g.table
    {
      ListedSourcesAreFine(g, o, a);
    }
  }

  lemma ListedSourcesAreFine(g: Subsystems, o: seq<Id>, a: Id)
    requires NoDuplicates(o) && Greedy(g, o) && a in o && forall x :: x in o ==> x in g.table
    ensures a in g.table && NoDuplicates(g.table[a].sources)
    ensures forall b :: b in g.table[a].sources ==> b in g.table
  {
    var i :| 0 <= i < |o| && o[i] == a;
    var before, sources := o[..i], g.table[a].sources;
    assert Eligible(g, before, a);
    forall x ensures multiset(sources)[x] <= 1 { DistinctOnce(before, x); }
    OnceIsDistinct(sources);
    forall b | b in sources ensures b in g.table {
      assert b in multiset(sources);
      assert b in before;
    }
  }

  // With none of the three, some subsystem is always eligible.
  lemma OrderableHasEligible(g: Subsystems, ordered: seq<Id>)
    requires g.Valid() && Orderable(g) && |ordered| < |g.order|
    requires NoDuplicates(ordered) && forall x :: x in ordered ==> x in g.table
    ensures exists j :: 0 <= j < |g.order| && Eligible(g, ordered, g.order[j])
  {
    var done := Elements(ordered);
    DistinctCount(ordered);
    DistinctCount(g.order);
    assert exists x :: x in g.table && x !in done by {
      if Elements(g.order) <= done { SubsetIsSmaller(Elements(g.order), done); }
    }
    AcyclicHasReady(g, done);
    var x :| Ready(g, done, x);
    forall b ensures multiset(g.table[x].sources)[b] <= multiset(ordered)[b] {
      DistinctOnce(g.table[x].sources, b);
      DistinctOnce(ordered, b);
      if b in g.table[x].sources { assert Edge(g, x, b); }
    }
    var j :| 0 <= j < |g.order| && g.order[j] == x;
    assert Eligible(g, ordered, g.order[j]);
  }

  lemma StuckIsNotOrderable(g: Subsystems, ordered: seq<Id>)
    requires g.Valid() && |ordered| < |g.order|
    requires NoDuplicates(ordered) && forall x :: x in ordered ==> x in g.table
    requires forall j :: 0 <= j < |g.order| ==> !Eligible(g, ordered, g.order[j])
    ensures !Orderable(g)
  {
    if Orderable(g) { OrderableHasEligible(g, ordered); }
  }

  // ----- what the order means for subsystems that feed one another

  ghost function IndexOf(o: seq<Id>, x: Id): (i: nat)
    requires x in o
    ensures i < |o| && o[i] == x
  {
    if o[0] == x then 0 else 1 + IndexOf(o[1..], x)
  }

  // `b` feeds `a`, directly or through other subsystems.
  ghost predicate Feeds(g: Subsystems, b: Id, a: Id) {
    exists p :: Walk(g, p) && |p| >= 2 && p[0] == a && p[|p| - 1] == b
  }

  lemma FeederComesFirst(g: Subsystems, o: seq<Id>, b: Id, a: Id, i: nat, j: nat)
    requires Lists(g, o) && SourcesFirst(g, o) && Feeds(g, b, a)
    requires i < |o| && o[i] == b && j < |o| && o[j] == a
    ensures i < j
  {
    assert TopoOrder(g, o);
    var p :| Walk(g, p) && |p| >= 2 && p[0] == a && p[|p| - 1] == b;
    WalkDescends(g, o, p, j, i);
  }

  // ----- a source listed twice

  // Two subsystems, of which the second lists the first as a source twice.
  const TWICE := Subsystems(["1", "2"], map["1" := Subsystem([], None, true), "2" := Subsystem(["1", "1"], None, true)])

  // There is no cycle and every source is known; yet after "1" no pass over the table appends anything.
  lemma ListedTwice()
    ensures TWICE.Valid() && Acyclic(TWICE) && SourcesKnown(TWICE)
    ensures Greedy(TWICE, ["1"]) && forall ss :: !Eligible(TWICE, ["1"], ss)
  {
    var g := TWICE;
    assert g.order[0] == "1" && g.order[1] == "2";
    assert TopoOrder(g, g.order) && Covers(g, g.order);
    OrderedIsAcyclic(g, g.order);
    assert multiset(g.table["2"].sources)["1"] == 2 && multiset(["1"])["1"] == 1;
    assert ["1"][..0] == [] && Eligible(g, [], g.order[0]);
    assert FirstEligible(g, [], "1");
  }
}
