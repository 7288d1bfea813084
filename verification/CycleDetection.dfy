/** The depth-first search that rejects circular `sources` configurations
    before any recursive bookkeeping is attempted. */
module CycleDetection {
  import opened Wrappers
  import opened SubsystemGraph

  // The reported path walks along source edges and ends at a subsystem it has already met.
  ghost predicate ClosesOnItself(g: Subsystems, p: seq<Id>) {
    Walk(g, p) && |p| >= 2 && p[|p| - 1] in p[..|p| - 1]
  }

  lemma ClosingWalkIsCyclic(g: Subsystems, p: seq<Id>)
    requires ClosesOnItself(g, p)
    ensures !Acyclic(g)
  {
    var i :| 0 <= i < |p| - 1 && p[i] == p[|p| - 1];
    RepeatIsCycle(g, p, i, |p| - 1);
  }

  // What the search keeps: closed calls are ordered, open calls form a walk, and the two sets
  // of the search say which call is which.
  ghost predicate Consistent(g: Subsystems, visited: set<Id>, inStack: set<Id>, stack: seq<Id>, finished: seq<Id>) {
    && TopoOrder(g, finished)
    && (stack != [] ==> Walk(g, stack))
    && (forall x :: x in inStack <==> x in stack)
    && (forall x :: x in visited <==> x in stack || x in finished)
    && (forall x :: x in stack ==> x !in finished)
  }

  lemma OpenCall(g: Subsystems, visited: set<Id>, inStack: set<Id>, stack: seq<Id>, finished: seq<Id>, ss: Id)
    requires Consistent(g, visited, inStack, stack, finished)
    requires ss in g.table && ss !in visited
    requires stack != [] ==> Edge(g, stack[|stack| - 1], ss)
    ensures Consistent(g, visited + {ss}, inStack + {ss}, stack + [ss], finished)
  {
    OpenWalk(g, stack, ss);
  }

  lemma CloseCall(g: Subsystems, visited: set<Id>, inStack: set<Id>, stack: seq<Id>, finished: seq<Id>, ss: Id)
    requires Consistent(g, visited, inStack, stack + [ss], finished)
    requires ss !in stack && ss in g.table
    requires forall b :: Edge(g, ss, b) ==> b in finished
    ensures Consistent(g, visited, inStack - {ss}, stack, finished + [ss])
  {
    assert ss in stack + [ss];
    AppendOrdered(g, finished, ss);
    if stack != [] {
      var p := stack + [ss];
      forall i | 0 <= i < |stack| - 1 ensures Edge(g, stack[i], stack[i + 1]) {
        assert Edge(g, p[i], p[i + 1]);
      }
      forall i | 0 <= i < |stack| ensures stack[i] in g.table { assert p[i] in g.table; }
    }
  }

  // A walk that starts below the open calls and ends at one of them, or at a vertex of its own.
  ghost predicate LeadsBack(g: Subsystems, open: seq<Id>, p: seq<Id>) {
    Walk(g, p) && |p| >= 2 && (p[|p| - 1] in open || p[|p| - 1] in p[..|p| - 1])
  }

  lemma LeadBackLonger(g: Subsystems, open: seq<Id>, ss: Id, rest: seq<Id>)
    requires LeadsBack(g, open + [ss], rest) && Edge(g, ss, rest[0])
    ensures LeadsBack(g, open, [ss] + rest)
  {
    PrependWalk(g, ss, rest);
    var p := [ss] + rest;
    if rest[|rest| - 1] in rest[..|rest| - 1] {
      var i :| 0 <= i < |rest| - 1 && rest[i] == rest[|rest| - 1];
      assert p[..|p| - 1][i + 1] == p[|p| - 1];
    } else if rest[|rest| - 1] !in open {
      assert p[..|p| - 1][0] == p[|p| - 1];
    }
  }

  lemma BackEdge(g: Subsystems, open: seq<Id>, ss: Id, source: Id)
    requires Edge(g, ss, source) && source in open + [ss]
    ensures LeadsBack(g, open, [ss, source])
  {
    assert [ss, source][..1] == [ss];
  }

  class CycleFinder {
    const g: Subsystems
    var visited: set<Id>
    var inStack: set<Id>
    ghost var stack: seq<Id>     // the walk of open calls, root first
    ghost var finished: seq<Id>  // closed calls, in the order they closed

    ghost predicate Valid()
      reads this
    {
      g.Valid() && Consistent(g, visited, inStack, stack, finished)
    }

    constructor (g: Subsystems)
      requires g.Valid()
      ensures Valid() && this.g == g && visited == {} && stack == [] && finished == []
    {
      this.g := g;
      visited, inStack, stack, finished := {}, {}, [], [];
    }

    // Either everything `ss` depends on is closed and so is `ss`, with the open calls as
    // before; or the result is a walk from `ss` whose end is on the walk itself or is an open call.
    method Dfs(ss: Id) returns (cycle: Option<seq<Id>>)
      requires Valid() && ss in g.table && ss !in visited
      requires stack != [] ==> Edge(g, stack[|stack| - 1], ss)
      modifies this
      ensures cycle.None? ==> Valid() && stack == old(stack) && old(finished) <= finished && ss in finished
      ensures old(visited) <= visited
      ensures cycle.Some? ==>
                LeadsBack(g, old(stack), cycle.value) && cycle.value[0] == ss
      decreases |g.table.Keys - visited|
    {
      ghost var open, seen := stack, visited;
      OpenCall(g, visited, inStack, stack, finished, ss);
      visited, inStack := visited + {ss}, inStack + {ss};
      stack := stack + [ss];
      var sources := g.table[ss].sources;
      for k := 0 to |sources|
        invariant Valid() && stack == open + [ss]
        invariant old(finished) <= finished && seen + {ss} <= visited
        invariant forall i :: 0 <= i < k && sources[i] in g.table ==> sources[i] in finished
      {
        var source := sources[k];
        if source !in g.table { continue; }
        assert Edge(g, ss, source);
        if source !in visited {
          RoomShrinks(g, seen, visited, ss);
          var rest := Dfs(source);
          if rest.Some? {
            LeadBackLonger(g, open, ss, rest.value);
            return Some([ss] + rest.value);
          }
        } else if source in inStack {
          BackEdge(g, open, ss, source);
          return Some([ss, source]);
        }
      }
      CloseCall(g, visited, inStack, open, finished, ss);
      inStack := inStack - {ss};
      stack, finished := open, finished + [ss];
      cycle := None;
    }

    // None exactly on acyclic graphs, and then a complete order is at hand as a witness.
    method FindCycle() returns (cycle: Option<seq<Id>>, ghost order: seq<Id>)
      requires Valid() && visited == {} && stack == []
      modifies this
      ensures cycle.None? <==> Acyclic(g)
      ensures cycle.None? ==> TopoOrder(g, order) && Covers(g, order)
      ensures cycle.Some? ==> ClosesOnItself(g, cycle.value) && cycle.value[0] in g.order
    {
      for k := 0 to |g.order|
        invariant Valid() && stack == []
        invariant forall i :: 0 <= i < k ==> g.order[i] in finished
      {
        var ss := g.order[k];
        if ss !in visited {
          var found := Dfs(ss);
          if found.Some? {
            ClosingWalkIsCyclic(g, found.value);
            return found, [];
          }
        }
      }
      cycle, order := None, finished;
      OrderedIsAcyclic(g, finished);
    }
  }

  // ----- steps of the search

  lemma OpenWalk(g: Subsystems, open: seq<Id>, ss: Id)
    requires ss in g.table
    requires open != [] ==> Walk(g, open) && Edge(g, open[|open| - 1], ss)
    ensures Walk(g, open + [ss])
  {
    var p := open + [ss];
    forall i | 0 <= i < |p| - 1 ensures Edge(g, p[i], p[i + 1]) {
      if i < |open| - 1 { assert Edge(g, open[i], open[i + 1]); }
    }
  }

  lemma PrependWalk(g: Subsystems, ss: Id, rest: seq<Id>)
    requires Walk(g, rest) && Edge(g, ss, rest[0])
    ensures Walk(g, [ss] + rest)
  {
    var p := [ss] + rest;
    forall i | 0 <= i < |p| - 1 ensures Edge(g, p[i], p[i + 1]) {
      if i > 0 { assert Edge(g, rest[i - 1], rest[i]); }
    }
  }

  lemma AppendOrdered(g: Subsystems, t: seq<Id>, ss: Id)
    requires TopoOrder(g, t) && ss in g.table && ss !in t
    requires forall b :: Edge(g, ss, b) ==> b in t
    ensures TopoOrder(g, t + [ss])
  {
    var t' := t + [ss];
    forall i, b | 0 <= i < |t'| && Edge(g, t'[i], b) ensures b in t'[..i] {
      assert t'[..i] == t[..i];
    }
  }

  // The unvisited part of the table is what bounds the recursion.
  lemma RoomShrinks(g: Subsystems, before: set<Id>, after: set<Id>, ss: Id)
    requires ss in g.table && ss !in before && before + {ss} <= after
    ensures |g.table.Keys - after| < |g.table.Keys - before|
  {
    SmallerSet(g.table.Keys - after, g.table.Keys - before, ss);
  }

  lemma {:induction false} SmallerSet<T>(small: set<T>, big: set<T>, x: T)
    requires small <= big && x in big && x !in small
    ensures |small| < |big|
  {
    assert |big| == |small| + |big - small| by { assert big == small + (big - small); }
  }
}
