/** The subsystems of a run and the graph their `sources` lists span. */
module SubsystemGraph {
  import opened Wrappers

  type Id = string

  datatype Subsystem = Subsystem(sources: seq<Id>, destination: Option<Id>, fragmentMode: bool)

  // The boot file's subsystems: a lookup table together with its iteration order
  // (a Python dict iterates in insertion order).  Ids are non-empty in the boot file.
  datatype Subsystems = Subsystems(order: seq<Id>, table: map<Id, Subsystem>) {
    ghost predicate Valid() {
      && NoDuplicates(order)
      && (forall x :: x in order <==> x in table)
      && "" !in table
    }
  }

  ghost predicate NoDuplicates<T>(s: seq<T>) {
    forall i, j :: 0 <= i < j < |s| ==> s[i] != s[j]
  }

  // `b` is listed as a source of `a`, and both are subsystems of the run.
  predicate Edge(g: Subsystems, a: Id, b: Id) {
    a in g.table && b in g.table && b in g.table[a].sources
  }

  // A walk along source edges, from a subsystem towards what feeds it.
  ghost predicate Walk(g: Subsystems, p: seq<Id>) {
    && |p| > 0
    && (forall i :: 0 <= i < |p| ==> p[i] in g.table)
    && (forall i :: 0 <= i < |p| - 1 ==> Edge(g, p[i], p[i + 1]))
  }

  ghost predicate Acyclic(g: Subsystems) {
    forall p :: Walk(g, p) && |p| >= 2 ==> p[0] != p[|p| - 1]
  }

  // Every source named by a subsystem is itself a subsystem.
  ghost predicate SourcesKnown(g: Subsystems) {
    forall a, b :: a in g.table && b in g.table[a].sources ==> b in g.table
  }

  ghost predicate SourcesDistinct(g: Subsystems) {
    forall a :: a in g.table ==> NoDuplicates(g.table[a].sources)
  }

  // Each subsystem of `t` comes after all its known sources.
  ghost predicate TopoOrder(g: Subsystems, t: seq<Id>) {
    && NoDuplicates(t)
    && (forall i :: 0 <= i < |t| ==> t[i] in g.table)
    && (forall i, b :: 0 <= i < |t| && Edge(g, t[i], b) ==> b in t[..i])
  }

  // `x` is not in `done` but every known source of it is.
  ghost predicate Ready(g: Subsystems, done: set<Id>, x: Id) {
    x in g.table && x !in done && forall b :: Edge(g, x, b) ==> b in done
  }

  ghost predicate Covers(g: Subsystems, t: seq<Id>) {
    forall x :: x in g.table ==> x in t
  }

  // ----- orders exclude cycles

  // Along a walk inside an order, positions strictly decrease.
  lemma {:induction false} WalkDescends(g: Subsystems, t: seq<Id>, p: seq<Id>, i: nat, j: nat)
    requires TopoOrder(g, t) && Walk(g, p) && |p| >= 2
    requires i < |t| && t[i] == p[0]
    requires j < |t| && t[j] == p[|p| - 1]
    ensures j < i
  {
    assert Edge(g, p[0], p[1]);
    var k :| 0 <= k < i && t[k] == p[1];
    if |p| > 2 {
      var q := p[1..];
      forall n | 0 <= n < |q| - 1 ensures Edge(g, q[n], q[n + 1]) {
        assert Edge(g, p[n + 1], p[n + 2]);
      }
      WalkDescends(g, t, q, k, j);
    }
  }

  lemma OrderedIsAcyclic(g: Subsystems, t: seq<Id>)
    requires TopoOrder(g, t) && Covers(g, t)
    ensures Acyclic(g)
  {
    forall p | Walk(g, p) && |p| >= 2 ensures p[0] != p[|p| - 1] {
      var i :| 0 <= i < |t| && t[i] == p[0];
      var j :| 0 <= j < |t| && t[j] == p[|p| - 1];
      WalkDescends(g, t, p, i, j);
    }
  }

  // ----- acyclic graphs can always be ordered further

  lemma {:induction false} Pigeonhole(p: seq<Id>, s: set<Id>)
    requires |p| > |s|
    requires forall i :: 0 <= i < |p| ==> p[i] in s
    ensures exists i, j :: 0 <= i < j < |p| && p[i] == p[j]
  {
    var last := p[|p| - 1];
    if i :| 0 <= i < |p| - 1 && p[i] == last {
      assert p[i] == p[|p| - 1];
    } else {
      var q, rest := p[..|p| - 1], s - {last};
      Pigeonhole(q, rest);
      var i, j :| 0 <= i < j < |q| && q[i] == q[j];
      assert p[i] == p[j];
    }
  }

  // A walk as long as one likes, when every subsystem outside `done` has a source outside `done`.
  lemma {:induction false} LongWalk(g: Subsystems, done: set<Id>, start: Id, n: nat) returns (p: seq<Id>)
    requires start in g.table && start !in done
    requires forall x :: !Ready(g, done, x)
    ensures Walk(g, p) && |p| == n + 1 && p[0] == start
    decreases n
  {
    if n == 0 {
      p := [start];
    } else {
      assert !Ready(g, done, start);
      var b :| Edge(g, start, b) && b !in done;
      var q := LongWalk(g, done, b, n - 1);
      p := [start] + q;
      forall i | 0 <= i < |p| - 1 ensures Edge(g, p[i], p[i + 1]) {
        if i > 0 { assert Edge(g, q[i - 1], q[i]); }
      }
    }
  }

  // A walk that meets a subsystem twice contains a cycle.
  lemma RepeatIsCycle(g: Subsystems, p: seq<Id>, i: nat, j: nat)
    requires Walk(g, p) && i < j < |p| && p[i] == p[j]
    ensures !Acyclic(g)
  {
    var q := p[i..j + 1];
    forall n | 0 <= n < |q| - 1 ensures Edge(g, q[n], q[n + 1]) {
      assert Edge(g, p[i + n], p[i + n + 1]);
    }
    assert Walk(g, q) && q[0] == q[|q| - 1];
  }

  // If the graph is acyclic and something is not done yet, something not done has all its
  // known sources done.
  lemma AcyclicHasReady(g: Subsystems, done: set<Id>)
    requires Acyclic(g)
    requires exists x :: x in g.table && x !in done
    ensures exists x :: Ready(g, done, x)
  {
    if forall x :: !Ready(g, done, x) {
      var start :| start in g.table && start !in done;
      var p := LongWalk(g, done, start, |g.table.Keys|);
      Pigeonhole(p, g.table.Keys);
      var i, j :| 0 <= i < j < |p| && p[i] == p[j];
      RepeatIsCycle(g, p, i, j);
    }
  }

  // An acyclic graph has a complete order: the witness the traversals recurse on.
  lemma AcyclicHasOrder(g: Subsystems) returns (t: seq<Id>)
    requires Acyclic(g)
    ensures TopoOrder(g, t) && Covers(g, t)
  {
    t := [];
    var left := g.table.Keys;
    while left != {}
      invariant TopoOrder(g, t)
      invariant forall x :: x in g.table ==> (x in left <==> x !in t)
      invariant left <= g.table.Keys
      decreases left
    {
      var done := set x | x in t;
      assert exists x :: x in left;
      AcyclicHasReady(g, done);
      var x :| Ready(g, done, x);
      assert x !in t;
      var t' := t + [x];
      forall i, b | 0 <= i < |t'| && Edge(g, t'[i], b) ensures b in t'[..i] {
        assert t'[..i] == t[..i];
      }
      left, t := left - {x}, t';
    }
  }
}
