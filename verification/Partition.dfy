/** Dividing the nodes into groups that are worked off one after the other, and each group into
    branches that work at the same time.  Fractions are exact. */
module Partition {
  import opened Wrappers

  // Nodes from `start` up to, not including, `end`.
  datatype Span = Span(start: nat, end: nat)

  // int(nth * (length / nway) + 0.5)
  function Cut(nway: nat, nth: nat, length: nat): nat
    requires nway > 0
  {
    (2 * nth * length + nway) / (2 * nway)
  }

  lemma DivAdd(a: nat, c: nat, b: nat)
    requires b > 0
    ensures a / b + c / b <= (a + c) / b <= a / b + c / b + 1
  {
    var x, y := a / b, c / b;
    assert a + c == (x + y) * b + (a % b + c % b);
    DivAt(a + c, x + y, a % b + c % b, b);
  }

  lemma DivAt(n: nat, q: nat, r: nat, b: nat)
    requires b > 0 && n == q * b + r && r < 2 * b
    ensures n / b == if r < b then q else q + 1
  {
    if r < b { Quotient(n, q, r, b); } else {
      assert n == (q + 1) * b + (r - b);
      Quotient(n, q + 1, r - b, b);
    }
  }

  lemma Quotient(n: nat, q: nat, r: nat, b: nat)
    requires b > 0 && n == q * b + r && r < b
    ensures n / b == q
  {
    LessTimes(n / b, q, b);
    LessTimes(q, n / b, b);
    assert n == (n / b) * b + n % b;
  }

  lemma {:induction false} LessTimes(x: nat, y: nat, b: nat)
    ensures x < y ==> x * b + b <= y * b
  {
    if x < y {
      LessTimes(x, y - 1, b);
      assert y * b == (y - 1) * b + b;
    }
  }

  lemma HalfQuotient(length: nat, nway: nat)
    requires nway > 0
    ensures (2 * length) / (2 * nway) == length / nway
  {
    var q := length / nway;
    assert 2 * length == q * (2 * nway) + 2 * (length % nway);
    Quotient(2 * length, q, 2 * (length % nway), 2 * nway);
  }

  // Neighbouring cuts are length / nway apart, rounded down or up; the first is 0, the last `length`.
  lemma CutSteps(nway: nat, nth: nat, length: nat)
    requires nway > 0
    ensures Cut(nway, 0, length) == 0 && Cut(nway, nway, length) == length
    ensures var from, to := Cut(nway, nth, length), Cut(nway, nth + 1, length);
            from + length / nway <= to <= from + length / nway + 1
  {
    Quotient(nway, 0, nway, 2 * nway);
    assert 2 * nway * length + nway == length * (2 * nway) + nway;
    Quotient(2 * nway * length + nway, length, nway, 2 * nway);
    assert 2 * (nth + 1) * length + nway == (2 * nth * length + nway) + 2 * length;
    DivAdd(2 * nth * length + nway, 2 * length, 2 * nway);
    HalfQuotient(length, nway);
  }

  // The integer nearest to nth * length / nway, the larger one of two.
  predicate Nearest(cut: int, nway: nat, nth: nat, length: nat) {
    2 * nway * cut <= 2 * nth * length + nway < 2 * nway * (cut + 1)
  }

  lemma NearestIsOne(a: int, b: int, nway: nat, nth: nat, length: nat)
    requires nway > 0 && Nearest(a, nway, nth, length) && Nearest(b, nway, nth, length)
    ensures a == b
  {
    var w := 2 * nway;
    assert w * a < w * (b + 1) && w * b < w * (a + 1);
    Monotone(w, b + 1, a);
    Monotone(w, a + 1, b);
  }

  lemma Monotone(w: nat, x: int, y: int)
    ensures x <= y ==> w * x <= w * y
  {
    if x <= y { assert w * y == w * x + w * (y - x); }
  }

  lemma CutIsNearest(nway: nat, nth: nat, length: nat)
    requires nway > 0
    ensures Nearest(Cut(nway, nth, length), nway, nth, length)
  {
    var x, b := 2 * nth * length + nway, 2 * nway;
    assert x == (x / b) * b + x % b;
  }

  // get_nway_indexes
  function NwayIndexes(nway: nat, nth: nat, length: nat, haveMe: bool): (r: Span)
    requires nway > 0 && (haveMe ==> length > 0)
    ensures haveMe ==> r.start > 0
  {
    var n: nat := if haveMe then length - 1 else length;
    var skip := if haveMe then 1 else 0;
    Span(Cut(nway, nth, n) + skip, Cut(nway, nth + 1, n) + skip)
  }

  // Spans one after the other from `from` to `to`.
  ghost predicate Chain(spans: seq<Span>, from: nat, to: nat) {
    if spans == [] then from == to
    else Chain(spans[..|spans| - 1], from, Last(spans).start) && Last(spans).start <= Last(spans).end == to
  }

  function Last(spans: seq<Span>): Span
    requires spans != []
  {
    spans[|spans| - 1]
  }

  lemma ChainAppend(spans: seq<Span>, from: nat, to: nat, s: Span)
    requires Chain(spans, from, to) && to == s.start <= s.end
    ensures Chain(spans + [s], from, s.end)
  {
    assert (spans + [s])[..|spans|] == spans;
  }

  lemma {:induction false} ChainJoin(a: seq<Span>, b: seq<Span>, from: nat, mid: nat, to: nat)
    requires Chain(a, from, mid) && Chain(b, mid, to)
    ensures Chain(a + b, from, to)
    decreases |b|
  {
    if b == [] { assert a + b == a; }
    else {
      var init := b[..|b| - 1];
      ChainJoin(a, init, from, mid, Last(b).start);
      assert a + b == (a + init) + [Last(b)];
      ChainAppend(a + init, from, Last(b).start, Last(b));
    }
  }

  predicate In(k: nat, s: Span) {
    s.start <= k < s.end
  }

  predicate InSome(k: nat, spans: seq<Span>) {
    exists i :: 0 <= i < |spans| && In(k, spans[i])
  }

  // In a chain every node is in exactly one span.
  lemma {:induction false} ChainOnce(spans: seq<Span>, from: nat, to: nat, k: nat)
    requires Chain(spans, from, to)
    ensures from <= to
    ensures InSome(k, spans) <==> from <= k < to
    ensures forall i, j :: 0 <= i < j < |spans| && In(k, spans[i]) ==> !In(k, spans[j])
    decreases |spans|
  {
    if spans != [] {
      var init := spans[..|spans| - 1];
      ChainOnce(init, from, Last(spans).start, k);
      assert forall i :: 0 <= i < |init| ==> init[i] == spans[i];
      if InSome(k, init) {
        var i :| 0 <= i < |init| && In(k, init[i]);
        assert In(k, spans[i]);
      }
      if InSome(k, spans) {
        var i :| 0 <= i < |spans| && In(k, spans[i]);
        if i < |init| { assert In(k, init[i]); }
      }
      if In(k, Last(spans)) { assert In(k, spans[|spans| - 1]); }
    }
  }

  ghost predicate Around(spans: seq<Span>, q: nat) {
    forall i :: 0 <= i < |spans| ==> spans[i].start + q <= spans[i].end <= spans[i].start + q + 1
  }

  // None is empty and lengths differ by at most one.
  ghost predicate Balanced(spans: seq<Span>) {
    exists q: nat :: Around(spans, q) && q > 0
  }

  // Each span starts where an even division, rounded, says.
  ghost predicate Rounded(spans: seq<Span>, from: nat, length: nat) {
    StartsNear(spans, |spans|, from, length)
  }

  ghost predicate StartsNear(spans: seq<Span>, n: nat, from: nat, length: nat) {
    forall i :: 0 <= i < |spans| ==> Nearest(spans[i].start - from, n, i, length)
  }

  lemma OneMoreNear(spans: seq<Span>, s: Span, n: nat, from: nat, length: nat)
    requires StartsNear(spans, n, from, length) && Nearest(s.start - from, n, |spans|, length)
    ensures StartsNear(spans + [s], n, from, length)
  {
  }

  // All cuts, one after the other.
  ghost predicate AreCuts(cuts: seq<nat>, nway: nat, length: nat)
    requires nway > 0
  {
    |cuts| == nway + 1 && forall i {:trigger Cut(nway, i, length)} :: 0 <= i <= nway ==> cuts[i] == Cut(nway, i, length)
  }

  // They are about q apart.
  ghost predicate Steps(cuts: seq<nat>, q: nat) {
    forall i :: 0 <= i < |cuts| - 1 ==> cuts[i] + q <= cuts[i + 1] <= cuts[i] + q + 1
  }

  lemma Cuts(nway: nat, length: nat) returns (cuts: seq<nat>, q: nat)
    requires 0 < nway <= length
    ensures AreCuts(cuts, nway, length) && cuts[0] == 0 && cuts[nway] == length
    ensures q > 0 && Steps(cuts, q)
  {
    cuts, q := seq(nway + 1, i requires i >= 0 => Cut(nway, i, length)), length / nway;
    AtLeastOne(length, nway);
    CutSteps(nway, 0, length);
    forall i | 0 <= i < nway ensures cuts[i] + q <= cuts[i + 1] <= cuts[i] + q + 1 {
      CutSteps(nway, i, length);
    }
  }

  method Branch(group: Span, inner: nat, i: nat, ghost cuts: seq<nat>) returns (branch: Span)
    requires group.start <= group.end && i < inner && AreCuts(cuts, inner, group.end - group.start)
    ensures branch == Span(group.start + cuts[i], group.start + cuts[i + 1])
    ensures Nearest(branch.start - group.start, inner, i, group.end - group.start)
  {
    CutIsNearest(inner, i, group.end - group.start);
    CutSteps(inner, i, group.end - group.start);
    var idxs := NwayIndexes(inner, i, group.end - group.start, false);
    var machIdx := group.start + idxs.start;
    branch := Span(machIdx, machIdx + (idxs.end - idxs.start));
  }

  // The branches of one group: `inner` of them, or one for each node.
  method Branches(group: Span, inner: nat) returns (branches: seq<Span>)
    requires group.start <= group.end && inner <= group.end - group.start && (group.start < group.end ==> inner > 0)
    ensures Chain(branches, group.start, group.end) && Balanced(branches) && |branches| == inner
    ensures Rounded(branches, group.start, group.end - group.start)
  {
    branches := [];
    if inner == 0 {
      assert Around(branches, 1);
      return;
    }
    ghost var cuts, q := Cuts(inner, group.end - group.start);
    for i := 0 to inner
      invariant |branches| == i && Chain(branches, group.start, group.start + cuts[i])
      invariant Around(branches, q)
      invariant StartsNear(branches, inner, group.start, group.end - group.start)
    {
      var branch := Branch(group, inner, i, cuts);
      OneMoreNear(branches, branch, inner, group.start, group.end - group.start);
      ChainAppend(branches, group.start, branch.start, branch);
      branches := branches + [branch];
    }
  }

  lemma AtLeastOne(length: nat, nway: nat)
    requires 0 < nway <= length
    ensures length / nway > 0
  {
    Quotient(length - nway, (length - nway) / nway, (length - nway) % nway, nway);
    Quotient(length, (length - nway) / nway + 1, (length - nway) % nway, nway);
  }

  function Ceil(a: nat, b: nat): (r: nat)
    requires b > 0
  {
    (a + b - 1) / b
  }

  lemma CeilFacts(a: nat, b: nat, g: nat)
    requires b > 0 && a > 0
    ensures 0 < Ceil(a, b) <= a && a <= Ceil(a, b) * b
    ensures g < Ceil(a, b) ==> g * b < a
  {
    CeilBounds(a, b);
    LessTimes(g, Ceil(a, b), b);
    LessTimes(a, Ceil(a, b), b);
    LessTimes(Ceil(a, b), 1, b);
    TimesOne(a, b);
  }

  lemma CeilBounds(a: nat, b: nat)
    requires b > 0
    ensures a <= Ceil(a, b) * b < a + b
  {
    assert a + b - 1 == Ceil(a, b) * b + (a + b - 1) % b;
  }

  lemma TimesOne(a: nat, b: nat)
    requires b > 0
    ensures a <= a * b && 1 * b == b
  {
  }

  // How many groups there are to be.
  function Outer(length: nat, nway: nat, serial: Option<nat>): (r: nat)
    requires length > 0
  {
    var r := match serial
      case None => 1
      case Some(k) => if k == 0 then nway else Ceil(length, k);
    if r > length || r == 0 then length else r
  }

  // Where group g starts, and group g - 1 ends.
  function Bound(length: nat, outer: nat, serial: Option<nat>, haveMe: bool, g: nat): nat
    requires length > 0 && outer > 0
  {
    if serial.Some? && serial.value > 0 then (if g * serial.value > length then length else g * serial.value)
    else if haveMe then Cut(outer, g, length - 1) + 1
    else Cut(outer, g, length)
  }

  lemma BoundEnds(length: nat, nway: nat, serial: Option<nat>, haveMe: bool, outer: nat)
    requires length > 0 && (haveMe ==> serial == None) && outer == Outer(length, nway, serial)
    ensures outer > 0 && Bound(length, outer, serial, haveMe, 0) == (if haveMe then 1 else 0)
    ensures Bound(length, outer, serial, haveMe, outer) == length
  {
    if serial.Some? && serial.value > 0 {
      CeilFacts(length, serial.value, 0);
    } else {
      CutSteps(outer, 0, if haveMe then length - 1 else length);
    }
  }

  function EvenSize(length: nat, nway: nat, serial: Option<nat>): nat
    requires length > 0
  {
    length / Outer(length, nway, serial)
  }

  lemma BoundSteps(length: nat, nway: nat, serial: Option<nat>, haveMe: bool, outer: nat, g: nat)
    requires length > 0 && (haveMe ==> serial == None) && g < outer == Outer(length, nway, serial)
    ensures var n := Bound(length, outer, serial, haveMe, g + 1) - Bound(length, outer, serial, haveMe, g);
            match serial
            case None => n >= 0
            case Some(k) => if k == 0 then var q := EvenSize(length, nway, serial); 0 < q <= n <= q + 1 else 0 < n <= k
  {
    if serial.Some? && serial.value > 0 {
      CeilFacts(length, serial.value, g);
      assert (g + 1) * serial.value == g * serial.value + serial.value;
    } else {
      CutSteps(outer, g, if haveMe then length - 1 else length);
      AtLeastOne(length, outer);
    }
  }

  ghost predicate Sized(group: Span, serial: Option<nat>, q: nat) {
    match serial
    case None => true
    case Some(k) =>
      if k == 0 then q > 0 && group.start + q <= group.end <= group.start + q + 1 else 0 < group.end - group.start <= k
  }

  // All bounds of groups.
  ghost predicate AreBounds(bounds: seq<nat>, length: nat, outer: nat, serial: Option<nat>, haveMe: bool)
    requires length > 0 && outer > 0
  {
    && |bounds| == outer + 1
    && forall g {:trigger Bound(length, outer, serial, haveMe, g)} ::
       0 <= g <= outer ==> bounds[g] == Bound(length, outer, serial, haveMe, g)
  }

  // The groups between them have the lengths that are asked for.
  ghost predicate SizedBounds(bounds: seq<nat>, serial: Option<nat>, q: nat) {
    forall g :: 0 <= g < |bounds| - 1 ==> bounds[g] <= bounds[g + 1] && Sized(Span(bounds[g], bounds[g + 1]), serial, q)
  }

  lemma Bounds(length: nat, nway: nat, serial: Option<nat>, haveMe: bool, outer: nat) returns (bounds: seq<nat>)
    requires length > 0 && (haveMe ==> serial == None) && 0 < outer == Outer(length, nway, serial)
    ensures AreBounds(bounds, length, outer, serial, haveMe) &&
            SizedBounds(bounds, serial, EvenSize(length, nway, serial))
    ensures bounds[0] == (if haveMe then 1 else 0) && bounds[outer] == length
  {
    bounds := seq(outer + 1, g requires g >= 0 => Bound(length, outer, serial, haveMe, g));
    BoundEnds(length, nway, serial, haveMe, outer);
    forall g | 0 <= g < outer
      ensures bounds[g] <= bounds[g + 1] &&
              Sized(Span(bounds[g], bounds[g + 1]), serial, EvenSize(length, nway, serial))
    {
      BoundSteps(length, nway, serial, haveMe, outer, g);
    }
  }

  // The branches of a group: as many as are asked for, but none empty, and one for each node when
  // nodes are worked off in groups.
  function Inner(nway: nat, serial: Option<nat>, length: nat): nat {
    if serial == None && 0 < nway <= length then nway else length
  }

  ghost predicate Divided(group: Span, branches: seq<Span>, nway: nat, serial: Option<nat>) {
    && group.start <= group.end
    && Chain(branches, group.start, group.end) && Balanced(branches)
    && Rounded(branches, group.start, group.end - group.start)
    && |branches| == Inner(nway, serial, group.end - group.start)
  }

  method Group(length: nat, serial: Option<nat>, haveMe: bool, outer: nat, g: nat, ghost bounds: seq<nat>)
    returns (group: Span)
    requires length > 0 && (haveMe ==> serial == None) && g < outer && AreBounds(bounds, length, outer, serial, haveMe)
    requires bounds[g] <= bounds[g + 1] && (serial.Some? && serial.value > 0 ==> bounds[g] < bounds[g + 1])
    ensures group == Span(bounds[g], bounds[g + 1])
  {
    assert bounds[g] == Bound(length, outer, serial, haveMe, g) &&
           bounds[g + 1] == Bound(length, outer, serial, haveMe, g + 1);
    if serial == None || serial.value == 0 {
      group := NwayIndexes(outer, g, length, haveMe);
    } else {
      var end := (g + 1) * serial.value;
      group := Span(g * serial.value, if end > length then length else end);
    }
  }

  // Groups, and the branches of each.  `serial` is None if groups are not asked for, 0 if there are
  // to be `nway` groups, and else the largest number of nodes of a group.
  method Divide(length: nat, nway: nat, serial: Option<nat>, haveMe: bool)
    returns (groups: seq<Span>, branches: seq<seq<Span>>)
    requires length > 0 && (haveMe ==> serial == None)
    ensures |groups| == |branches| == Outer(length, nway, serial) && Chain(groups, if haveMe then 1 else 0, length)
    ensures forall g :: 0 <= g < |groups| ==> Divided(groups[g], branches[g], nway, serial)
    ensures forall g :: 0 <= g < |groups| ==> Sized(groups[g], serial, EvenSize(length, nway, serial))
    ensures serial == None ==> |groups| == 1
    ensures serial == Some(0)
            ==> |groups| == (if 0 < nway <= length then nway else length) && Rounded(groups, 0, length)
    ensures serial.Some? && serial.value > 0 ==>
      && length <= |groups| * serial.value < length + serial.value
      && forall g :: 0 <= g < |groups| ==> groups[g].start == g * serial.value
    ensures forall g :: 0 <= g < |groups| ==>
      var n := groups[g].end - groups[g].start;
      |branches[g]| == if serial == None && 0 < nway <= n then nway else n
  {
    var outer, inner := HowMany(length, nway, serial);
    ghost var bounds := Bounds(length, nway, serial, haveMe, outer);
    groups, branches := Groups(length, nway, serial, haveMe, outer, inner, bounds, EvenSize(length, nway, serial));
    forall g | 0 <= g < |groups|
      ensures serial == Some(0) ==> Nearest(groups[g].start, outer, g, length)
      ensures serial.Some? && serial.value > 0 ==> groups[g].start == g * serial.value
    {
      assert bounds[g] == Bound(length, outer, serial, haveMe, g);
      CutIsNearest(outer, g, length);
      if serial.Some? && serial.value > 0 { CeilFacts(length, serial.value, g); }
    }
    if serial.Some? && serial.value > 0 { AtMostAll(length, serial.value); }
  }

  // There are no more groups of k than nodes.
  lemma AtMostAll(length: nat, k: nat)
    requires length > 0 && k > 0
    ensures 0 < Ceil(length, k) <= length <= Ceil(length, k) * k < length + k
  {
    CeilBounds(length, k);
    CeilFacts(length, k, 0);
  }

  method Groups(length: nat, nway: nat, serial: Option<nat>, haveMe: bool, outer: nat, innerFirst: nat,
                ghost bounds: seq<nat>, ghost q: nat)
    returns (groups: seq<Span>, branches: seq<seq<Span>>)
    requires length > 0 && (haveMe ==> serial == None) && outer > 0 && AreBounds(bounds, length, outer, serial, haveMe)
    requires SizedBounds(bounds, serial, q)
    requires innerFirst == (if serial == None then nway else 0) && (serial == None ==> outer == 1)
    ensures |groups| == outer && Chain(groups, bounds[0], bounds[outer])
    ensures StartAt(groups, bounds) && AllGroups(groups, branches, nway, serial, q)
  {
    var inner := innerFirst;
    groups, branches := [], [];
    for g := 0 to outer
      invariant |groups| == g && (g == 0 ==> inner == innerFirst)
      invariant GroupsSoFar(groups, branches, nway, serial, bounds, q)
    {
      SizedAt(bounds, serial, q, g);
      var group := Group(length, serial, haveMe, outer, g, bounds);
      groups, branches, inner := AddGroup(groups, branches, group, nway, serial, inner, innerFirst, bounds, q);
    }
  }

  ghost predicate GroupsSoFar(groups: seq<Span>, branches: seq<seq<Span>>, nway: nat, serial: Option<nat>,
                              bounds: seq<nat>, q: nat)
  {
    && |groups| < |bounds| && Chain(groups, bounds[0], bounds[|groups|])
    && StartAt(groups, bounds) && AllGroups(groups, branches, nway, serial, q)
  }

  method AddGroup(groups: seq<Span>, branches: seq<seq<Span>>, group: Span, nway: nat, serial: Option<nat>,
                  was: nat, innerFirst: nat, ghost bounds: seq<nat>, ghost q: nat)
    returns (moreGroups: seq<Span>, moreBranches: seq<seq<Span>>, inner: nat)
    requires GroupsSoFar(groups, branches, nway, serial, bounds, q) && SizedBounds(bounds, serial, q)
    requires |groups| + 1 < |bounds| && group == Span(bounds[|groups|], bounds[|groups| + 1])
    requires innerFirst == (if serial == None then nway else 0) && (serial == None ==> was == innerFirst)
    ensures moreGroups == groups + [group] && GroupsSoFar(moreGroups, moreBranches, nway, serial, bounds, q)
  {
    SizedAt(bounds, serial, q, |groups|);
    var inGroup;
    inGroup, inner := InGroup(group, nway, serial, was, innerFirst);
    ChainAppend(groups, bounds[0], group.start, group);
    OneMoreGroup(groups, branches, group, inGroup, nway, serial, q, bounds);
    moreGroups, moreBranches := groups + [group], branches + [inGroup];
  }

  lemma SizedAt(bounds: seq<nat>, serial: Option<nat>, q: nat, g: nat)
    requires SizedBounds(bounds, serial, q) && g < |bounds| - 1
    ensures bounds[g] <= bounds[g + 1] && Sized(Span(bounds[g], bounds[g + 1]), serial, q)
    ensures serial.Some? && serial.value > 0 ==> bounds[g] < bounds[g + 1]
  {
  }

  ghost predicate AllGroups(groups: seq<Span>, branches: seq<seq<Span>>, nway: nat, serial: Option<nat>, q: nat) {
    && |groups| == |branches|
    && forall k :: 0 <= k < |groups| ==> Divided(groups[k], branches[k], nway, serial) && Sized(groups[k], serial, q)
  }

  lemma OneMoreGroup(groups: seq<Span>, branches: seq<seq<Span>>, group: Span, inGroup: seq<Span>, nway: nat,
                     serial: Option<nat>, q: nat, bounds: seq<nat>)
    requires AllGroups(groups, branches, nway, serial, q) && StartAt(groups, bounds)
    requires Divided(group, inGroup, nway, serial) && Sized(group, serial, q)
    requires |groups| < |bounds| && group.start == bounds[|groups|]
    ensures AllGroups(groups + [group], branches + [inGroup], nway, serial, q) && StartAt(groups + [group], bounds)
  {
  }

  ghost predicate StartAt(groups: seq<Span>, bounds: seq<nat>) {
    |groups| <= |bounds| && forall k :: 0 <= k < |groups| ==> groups[k].start == bounds[k]
  }

  method InGroup(group: Span, nway: nat, serial: Option<nat>, was: nat, innerFirst: nat)
    returns (branches: seq<Span>, inner: nat)
    requires group.start <= group.end && innerFirst == (if serial == None then nway else 0)
    requires serial == None ==> was == innerFirst
    ensures Divided(group, branches, nway, serial)
  {
    inner := was;
    var groupLength := group.end - group.start;
    if inner > groupLength || innerFirst == 0 {
      inner := groupLength;
    }
    branches := Branches(group, inner);
  }

  method HowMany(length: nat, nway: nat, serial: Option<nat>) returns (outer: nat, inner: nat)
    requires length > 0
    ensures outer == Outer(length, nway, serial) && outer > 0 && inner == if serial == None then nway else 0
    ensures serial == None ==> outer == 1
  {
    if serial.Some? {
      inner := 0;
      outer := if serial.value == 0 then nway else Ceil(length, serial.value);
    } else {
      outer, inner := 1, nway;
    }
    if outer > length || outer == 0 {
      outer := length;
    }
  }

  // All branches, one after the other.
  function Flatten(branches: seq<seq<Span>>): seq<Span> {
    if branches == [] then [] else Flatten(branches[..|branches| - 1]) + branches[|branches| - 1]
  }

  lemma {:induction false} FlattenChain(groups: seq<Span>, branches: seq<seq<Span>>, from: nat, to: nat, nway: nat,
                                        serial: Option<nat>)
    requires |groups| == |branches| && Chain(groups, from, to)
    requires forall g :: 0 <= g < |groups| ==> Divided(groups[g], branches[g], nway, serial)
    ensures Chain(Flatten(branches), from, to)
    decreases |groups|
  {
    if groups != [] {
      var n := |groups| - 1;
      FlattenChain(groups[..n], branches[..n], from, groups[n].start, nway, serial);
      ChainJoin(Flatten(branches[..n]), branches[n], from, groups[n].start, to);
    }
  }

  // Every node from the first one that is not this node itself is in exactly one branch.
  lemma EveryNodeOnce(groups: seq<Span>, branches: seq<seq<Span>>, from: nat, length: nat, nway: nat,
                      serial: Option<nat>, k: nat)
    requires |groups| == |branches| && Chain(groups, from, length)
    requires forall g :: 0 <= g < |groups| ==> Divided(groups[g], branches[g], nway, serial)
    ensures var all := Flatten(branches);
            && (InSome(k, all) <==> from <= k < length)
            && (forall i, j :: 0 <= i < j < |all| && In(k, all[i]) ==> !In(k, all[j]))
  {
    FlattenChain(groups, branches, from, length, nway, serial);
    ChainOnce(Flatten(branches), from, length, k);
  }
}
