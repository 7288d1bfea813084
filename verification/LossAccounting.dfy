/** Losing processes in a running system: how many of which are required, the count of those still
    alive, and when a loss ends the run. */
module LossAccounting {
  import opened Wrappers
  import opened Processes

  datatype Member = Member(procLabel: string, kind: ProcType, host: string, writesRootFile: bool)

  // A rule for the labels that match an expression; `current` counts those still alive.
  datatype Requirement = Requirement(pattern: string, original: nat, minimum: nat, current: int)

  // Whether a label matches an expression is decided by the regular-expression engine.
  type Matching = (string, string) -> bool

  function Count(matches: Matching, pattern: string, procs: seq<Member>): nat {
    if procs == [] then 0
    else Count(matches, pattern, procs[..|procs| - 1]) + if matches(pattern, procs[|procs| - 1].procLabel) then 1 else 0
  }

  // ----- required numbers

  // round() of Python 3: to the nearest integer, a half to the even one.
  function Round(x: real): (k: int)
    ensures x - 0.5 <= k as real <= x + 0.5
    ensures k as real == x - 0.5 || k as real == x + 0.5 ==> k % 2 == 0
  {
    var low := x.Floor;
    var part := x - low as real;
    if part < 0.5 || (part == 0.5 && low % 2 == 0) then low else low + 1
  }

  function Required(n: nat, fraction: real): int {
    Round(n as real * fraction + 0.499999)
  }

  // The share is rounded up, but for a millionth; the whole of n is n.
  lemma RequiredRoundsUp(n: nat, fraction: real)
    ensures var x := n as real * fraction; x - 0.000001 <= Required(n, fraction) as real < x + 1.0
    ensures Required(n, 1.0) == n
  {
    assert n as real * 1.0 == n as real;
    var k := Required(n, 1.0);
    assert n as real - 0.000001 <= k as real < n as real + 1.0;
  }

  datatype Line = Blank | Rule(pattern: string, fraction: real, count: nat) | Malformed

  datatype ListError = TooFew(line: nat) | BadLine(line: nat)

  function Minimum(n: nat, rule: Line): int
    requires rule.Rule?
  {
    if Required(n, rule.fraction) > rule.count then Required(n, rule.fraction) else rule.count
  }

  // The requirement a line stands for, unless it is blank.
  ghost predicate Stands(matches: Matching, procs: seq<Member>, rule: Line, r: Requirement) {
    && rule.Rule? && r.pattern == rule.pattern
    && r.original == r.current == Count(matches, rule.pattern, procs)
    && r.minimum == Minimum(r.original, rule) <= r.current
  }

  // A line that makes no trouble when the list is read.
  ghost predicate Acceptable(matches: Matching, procs: seq<Member>, line: Line) {
    match line
    case Blank => true
    case Malformed => false
    case Rule(pattern, _, _) => Minimum(Count(matches, pattern, procs), line) <= Count(matches, pattern, procs)
  }

  // The error is about the first line that makes trouble.
  ghost predicate FirstTrouble(matches: Matching, procs: seq<Member>, lines: seq<Line>, error: ListError) {
    && error.line < |lines| && !Acceptable(matches, procs, lines[error.line])
    && (forall i :: 0 <= i < error.line ==> Acceptable(matches, procs, lines[i]))
    && (error.BadLine? <==> lines[error.line] == Malformed)
  }

  function Rules(lines: seq<Line>): seq<Line> {
    if lines == [] then []
    else Rules(lines[..|lines| - 1]) + if lines[|lines| - 1].Rule? then [lines[|lines| - 1]] else []
  }

  // ----- the effect of a loss

  predicate Hit(matches: Matching, r: Requirement, p: Member) {
    matches(r.pattern, p.procLabel)
  }

  function Less(matches: Matching, r: Requirement, p: Member): Requirement {
    if Hit(matches, r, p) then r.(current := r.current - 1) else r
  }

  // All requirements, with the loss of p counted in the first k.
  function Counted(matches: Matching, rs: seq<Requirement>, p: Member, k: nat): (t: seq<Requirement>)
    requires k <= |rs|
    ensures |t| == |rs| && forall i :: 0 <= i < |rs| ==> t[i] == if i < k then Less(matches, rs[i], p) else rs[i]
  {
    seq(|rs|, i requires 0 <= i < |rs| => if i < k then Less(matches, rs[i], p) else rs[i])
  }

  // The first rule whose minimum the loss of p breaks.
  predicate Breaks(matches: Matching, r: Requirement, p: Member) {
    Hit(matches, r, p) && r.current - 1 < r.minimum
  }

  predicate Covered(matches: Matching, rs: seq<Requirement>, p: Member) {
    exists i :: 0 <= i < |rs| && Hit(matches, rs[i], p)
  }

  function OfKind(procs: seq<Member>, kind: ProcType): seq<Member> {
    if procs == [] then []
    else OfKind(procs[..|procs| - 1], kind) + if procs[|procs| - 1].kind == kind then [procs[|procs| - 1]] else []
  }

  // Without a rule for it: whether the run cannot go on without p, `rest` being the others.
  predicate Critical(p: Member, rest: seq<Member>) {
    || p.kind == BoardReader
    || p.writesRootFile
    || (p.kind == EventBuilder &&
        var builders := OfKind(rest, EventBuilder);
        || OfKind(rest, RoutingManager) == []
        || builders == []
        || (|builders| == 1 && builders[0].procLabel == p.procLabel))
  }

  // A board reader, what writes to disk, an event builder without a routing manager or with no other event
  // builder left: at most one is listed, of the same label.
  ghost predicate Indispensable(p: Member, rest: seq<Member>) {
    || p.kind == BoardReader
    || p.writesRootFile
    || (p.kind == EventBuilder && forall i :: 0 <= i < |rest| ==> rest[i].kind != RoutingManager)
    || (p.kind == EventBuilder
        && (forall i :: 0 <= i < |rest| && rest[i].kind == EventBuilder ==> rest[i].procLabel == p.procLabel)
        && (forall i, j :: 0 <= i < j < |rest| ==> rest[i].kind != EventBuilder || rest[j].kind != EventBuilder))
  }

  lemma {:induction false} OfKindHolds(procs: seq<Member>, kind: ProcType)
    ensures var l := OfKind(procs, kind);
            && (l == [] <==> forall i :: 0 <= i < |procs| ==> procs[i].kind != kind)
            && (|l| <= 1 <==> forall i, j :: 0 <= i < j < |procs| ==> procs[i].kind != kind || procs[j].kind != kind)
            && (|l| == 1 ==> exists i :: 0 <= i < |procs| && procs[i].kind == kind && procs[i] == l[0])
  {
    if procs != [] {
      var init := procs[..|procs| - 1];
      OfKindHolds(init, kind);
      forall i | 0 <= i < |init| ensures init[i] == procs[i] {}
    }
  }

  lemma CriticalExactly(p: Member, rest: seq<Member>)
    ensures Critical(p, rest) <==> Indispensable(p, rest)
  {
    OfKindHolds(rest, EventBuilder);
    OfKindHolds(rest, RoutingManager);
  }

  predicate EndsRun(matches: Matching, rs: seq<Requirement>, p: Member, rest: seq<Member>) {
    if Covered(matches, rs, p) then exists i :: 0 <= i < |rs| && Breaks(matches, rs[i], p)
    else Critical(p, rest)
  }

  // procinfos.remove(p)
  function Without(procs: seq<Member>, p: Member): seq<Member>
  {
    if procs == [] then []
    else if procs[0] == p then procs[1..]
    else [procs[0]] + Without(procs[1..], p)
  }

  // ----- losses one after the other, as long as none ends the run

  function ProcsAfter(procs: seq<Member>, lost: seq<Member>, k: nat): seq<Member>
    requires k <= |lost|
  {
    if k == 0 then procs else Without(ProcsAfter(procs, lost, k - 1), lost[k - 1])
  }

  function RulesAfter(matches: Matching, rs: seq<Requirement>, lost: seq<Member>, k: nat): (t: seq<Requirement>)
    requires k <= |lost|
    ensures |t| == |rs|
  {
    if k == 0 then rs else Counted(matches, RulesAfter(matches, rs, lost, k - 1), lost[k - 1], |rs|)
  }

  // The k-th loss ends the run, if none before did.
  ghost predicate EndsAt(matches: Matching, procs: seq<Member>, rs: seq<Requirement>, lost: seq<Member>, k: nat)
    requires k < |lost|
  {
    EndsRun(matches, RulesAfter(matches, rs, lost, k), lost[k], ProcsAfter(procs, lost, k + 1))
  }

  // Every rule's count is the number of processes alive that it matches.
  ghost predicate Accurate(matches: Matching, procs: seq<Member>, rs: seq<Requirement>) {
    forall i :: 0 <= i < |rs| ==> rs[i].current == Count(matches, rs[i].pattern, procs)
  }

  ghost predicate Healthy(rs: seq<Requirement>) {
    forall i :: 0 <= i < |rs| ==> rs[i].current >= rs[i].minimum
  }

  lemma {:induction false} CountJoin(matches: Matching, pattern: string, a: seq<Member>, b: seq<Member>)
    ensures Count(matches, pattern, a + b) == Count(matches, pattern, a) + Count(matches, pattern, b)
    decreases |b|
  {
    if b == [] { assert a + b == a; }
    else {
      assert (a + b)[..|a + b| - 1] == a + b[..|b| - 1];
      CountJoin(matches, pattern, a, b[..|b| - 1]);
    }
  }

  lemma {:induction false} CountWithout(matches: Matching, pattern: string, procs: seq<Member>, p: Member)
    requires p in procs
    ensures Count(matches, pattern, Without(procs, p))
            == Count(matches, pattern, procs) - if matches(pattern, p.procLabel) then 1 else 0
  {
    var head := procs[..1];
    assert procs == head + procs[1..] && head[..0] == [];
    CountJoin(matches, pattern, head, procs[1..]);
    if procs[0] != p {
      CountWithout(matches, pattern, procs[1..], p);
      assert Without(procs, p) == head + Without(procs[1..], p);
      CountJoin(matches, pattern, head, Without(procs[1..], p));
    }
  }

  ghost predicate CanRemove(procs: seq<Member>, lost: seq<Member>, k: nat)
    requires k < |lost|
  {
    lost[k] in ProcsAfter(procs, lost, k)
  }

  // Every lost process is there to be removed when its turn comes.
  ghost predicate Removable(procs: seq<Member>, lost: seq<Member>) {
    forall k {:trigger CanRemove(procs, lost, k)} :: 0 <= k < |lost| ==> CanRemove(procs, lost, k)
  }

  // So it is if the lost processes are some of those of the run.
  lemma LostAreRemovable(procs: seq<Member>, lost: seq<Member>)
    requires multiset(lost) <= multiset(procs)
    ensures Removable(procs, lost)
  {
    forall k | 0 <= k < |lost| ensures CanRemove(procs, lost, k) {
      CopiesLeft(procs, lost, k, lost[k]);
      OneMore(lost, k);
      assert lost[k] in multiset(ProcsAfter(procs, lost, k));
    }
  }

  lemma {:induction false} CopiesLeft(procs: seq<Member>, lost: seq<Member>, k: nat, q: Member)
    requires k <= |lost|
    ensures multiset(ProcsAfter(procs, lost, k))[q] + multiset(lost[..k])[q] >= multiset(procs)[q]
    decreases k
  {
    if k > 0 {
      CopiesLeft(procs, lost, k - 1, q);
      assert lost[..k] == lost[..k - 1] + [lost[k - 1]];
      CopyWithout(ProcsAfter(procs, lost, k - 1), lost[k - 1], q);
    }
  }

  lemma {:induction false} CopyWithout(procs: seq<Member>, p: Member, q: Member)
    ensures multiset(Without(procs, p))[q] + (if p == q then 1 else 0) >= multiset(procs)[q]
  {
    if procs != [] {
      assert procs == [procs[0]] + procs[1..];
      if procs[0] != p { CopyWithout(procs[1..], p, q); }
    }
  }

  lemma OneMore(l: seq<Member>, k: nat)
    requires k < |l|
    ensures multiset(l[..k])[l[k]] < multiset(l)[l[k]]
  {
    var rest := l[k + 1..];
    assert l == l[..k] + [l[k]] + rest;
    assert multiset(l) == multiset(l[..k]) + multiset{l[k]} + multiset(rest);
  }

  lemma OneLoss(matches: Matching, procs: seq<Member>, rs: seq<Requirement>, p: Member)
    requires p in procs && Accurate(matches, procs, rs)
    ensures Accurate(matches, Without(procs, p), Counted(matches, rs, p, |rs|))
  {
    forall i | 0 <= i < |rs|
      ensures Less(matches, rs[i], p).current == Count(matches, rs[i].pattern, Without(procs, p)) {
      CountWithout(matches, rs[i].pattern, procs, p);
    }
  }

  ghost predicate SameRule(a: Requirement, b: Requirement) {
    a.pattern == b.pattern && a.minimum == b.minimum
  }

  // Counting the losses keeps the counts accurate; patterns and minima do not change.
  lemma {:induction false} StaysAccurate(matches: Matching, procs: seq<Member>, rs: seq<Requirement>,
                                         lost: seq<Member>, k: nat)
    requires k <= |lost| && Removable(procs, lost) && Accurate(matches, procs, rs)
    ensures var t := RulesAfter(matches, rs, lost, k);
            && Accurate(matches, ProcsAfter(procs, lost, k), t)
            && forall i :: 0 <= i < |rs| ==> SameRule(t[i], rs[i])
    decreases k
  {
    if k > 0 {
      StaysAccurate(matches, procs, rs, lost, k - 1);
      assert CanRemove(procs, lost, k - 1);
      OneLoss(matches, ProcsAfter(procs, lost, k - 1), RulesAfter(matches, rs, lost, k - 1), lost[k - 1]);
    }
  }

  lemma {:induction false} CountsFall(matches: Matching, pattern: string, procs: seq<Member>, lost: seq<Member>,
                                      j: nat, k: nat)
    requires j <= k <= |lost| && Removable(procs, lost)
    ensures Count(matches, pattern, ProcsAfter(procs, lost, k)) <= Count(matches, pattern, ProcsAfter(procs, lost, j))
    decreases k
  {
    if j < k {
      CountsFall(matches, pattern, procs, lost, j, k - 1);
      assert CanRemove(procs, lost, k - 1);
      CountWithout(matches, pattern, ProcsAfter(procs, lost, k - 1), lost[k - 1]);
    }
  }

  // The loss at which a count falls below a minimum.
  lemma {:induction false} Crossing(matches: Matching, pattern: string, procs: seq<Member>, lost: seq<Member>,
                                    minimum: int, k: nat) returns (at: nat)
    requires k <= |lost| && Removable(procs, lost)
    requires Count(matches, pattern, ProcsAfter(procs, lost, k)) < minimum <= Count(matches, pattern, procs)
    ensures at < k && matches(pattern, lost[at].procLabel)
    ensures Count(matches, pattern, ProcsAfter(procs, lost, at)) - 1 < minimum
    decreases k
  {
    at := k - 1;
    assert CanRemove(procs, lost, at);
    CountWithout(matches, pattern, ProcsAfter(procs, lost, at), lost[at]);
    if Count(matches, pattern, ProcsAfter(procs, lost, at)) < minimum {
      at := Crossing(matches, pattern, procs, lost, minimum, at);
    }
  }

  // Some rule has too few processes when all losses are counted.
  ghost predicate TooFewLeft(matches: Matching, procs: seq<Member>, rs: seq<Requirement>, lost: seq<Member>) {
    exists i :: 0 <= i < |rs| && Count(matches, rs[i].pattern, ProcsAfter(procs, lost, |lost|)) < rs[i].minimum
  }

  ghost predicate CriticalLoss(matches: Matching, procs: seq<Member>, rs: seq<Requirement>, lost: seq<Member>, k: nat)
    requires k < |lost|
  {
    !Covered(matches, rs, lost[k]) && Indispensable(lost[k], ProcsAfter(procs, lost, k + 1))
  }

  // Whatever the order of the losses, the run ends exactly if in the end some rule has fewer processes
  // than its minimum, or a process without a rule was lost that the run cannot go on without.
  lemma EndsExactly(matches: Matching, procs: seq<Member>, rs: seq<Requirement>, lost: seq<Member>)
    requires Removable(procs, lost) && Accurate(matches, procs, rs) && Healthy(rs)
    ensures (exists k :: 0 <= k < |lost| && EndsAt(matches, procs, rs, lost, k)) <==>
            || TooFewLeft(matches, procs, rs, lost)
            || (exists k :: 0 <= k < |lost| && CriticalLoss(matches, procs, rs, lost, k))
  {
    forall k | 0 <= k < |lost| && EndsAt(matches, procs, rs, lost, k)
      ensures TooFewLeft(matches, procs, rs, lost) || CriticalLoss(matches, procs, rs, lost, k)
    {
      EndMeans(matches, procs, rs, lost, k);
    }
    forall k | 0 <= k < |lost| && CriticalLoss(matches, procs, rs, lost, k)
      ensures EndsAt(matches, procs, rs, lost, k) {
      CriticalExactly(lost[k], ProcsAfter(procs, lost, k + 1));
      SameRules(matches, procs, rs, lost, k);
    }
    if TooFewLeft(matches, procs, rs, lost) { var k := TooFewEnds(matches, procs, rs, lost); }
  }

  // If no loss ends the run, every count is accurate afterwards and no minimum is broken.
  lemma SurvivedLosses(matches: Matching, procs: seq<Member>, rs: seq<Requirement>, lost: seq<Member>)
    requires Removable(procs, lost) && Accurate(matches, procs, rs) && Healthy(rs)
    requires forall k :: 0 <= k < |lost| ==> !EndsAt(matches, procs, rs, lost, k)
    ensures var t := RulesAfter(matches, rs, lost, |lost|);
            Accurate(matches, ProcsAfter(procs, lost, |lost|), t) && Healthy(t)
  {
    StaysAccurate(matches, procs, rs, lost, |lost|);
    EndsExactly(matches, procs, rs, lost);
    var t := RulesAfter(matches, rs, lost, |lost|);
    forall i | 0 <= i < |t| ensures t[i].current >= t[i].minimum { assert SameRule(t[i], rs[i]); }
  }

  lemma SameRules(matches: Matching, procs: seq<Member>, rs: seq<Requirement>, lost: seq<Member>, k: nat)
    requires k < |lost| && Removable(procs, lost) && Accurate(matches, procs, rs)
    ensures Covered(matches, RulesAfter(matches, rs, lost, k), lost[k]) <==> Covered(matches, rs, lost[k])
  {
    StaysAccurate(matches, procs, rs, lost, k);
    var t := RulesAfter(matches, rs, lost, k);
    forall i | 0 <= i < |rs| ensures Hit(matches, t[i], lost[k]) == Hit(matches, rs[i], lost[k]) {}
  }

  lemma EndMeans(matches: Matching, procs: seq<Member>, rs: seq<Requirement>, lost: seq<Member>, k: nat)
    requires k < |lost| && Removable(procs, lost) && Accurate(matches, procs, rs)
    requires EndsAt(matches, procs, rs, lost, k)
    ensures TooFewLeft(matches, procs, rs, lost) || CriticalLoss(matches, procs, rs, lost, k)
  {
    SameRules(matches, procs, rs, lost, k);
    CriticalExactly(lost[k], ProcsAfter(procs, lost, k + 1));
    if Covered(matches, rs, lost[k]) {
      var t := RulesAfter(matches, rs, lost, k);
      var i :| 0 <= i < |t| && Breaks(matches, t[i], lost[k]);
      StaysAccurate(matches, procs, rs, lost, k);
      assert CanRemove(procs, lost, k);
      CountWithout(matches, rs[i].pattern, ProcsAfter(procs, lost, k), lost[k]);
      CountsFall(matches, rs[i].pattern, procs, lost, k + 1, |lost|);
    }
  }

  lemma TooFewEnds(matches: Matching, procs: seq<Member>, rs: seq<Requirement>, lost: seq<Member>) returns (k: nat)
    requires Removable(procs, lost) && Accurate(matches, procs, rs) && Healthy(rs) &&
             TooFewLeft(matches, procs, rs, lost)
    ensures k < |lost| && EndsAt(matches, procs, rs, lost, k)
  {
    var i :| 0 <= i < |rs| && Count(matches, rs[i].pattern, ProcsAfter(procs, lost, |lost|)) < rs[i].minimum;
    k := Crossing(matches, rs[i].pattern, procs, lost, rs[i].minimum, |lost|);
    StaysAccurate(matches, procs, rs, lost, k);
    var t := RulesAfter(matches, rs, lost, k);
    assert Hit(matches, t[i], lost[k]) && Breaks(matches, t[i], lost[k]);
  }

  // ----- the processes of a run and their requirements

  class Watch {
    const matches: Matching
    var procs: seq<Member>
    var requirements: seq<Requirement>

    constructor (matches: Matching, procs: seq<Member>)
      ensures this.matches == matches && this.procs == procs && requirements == []
    {
      this.matches, this.procs, requirements := matches, procs, [];
    }

    method NumRequired(pattern: string, fraction: real) returns (k: int)
      ensures k == Required(Count(matches, pattern, procs), fraction)
    {
      var absolute := 0;
      for i := 0 to |procs|
        invariant absolute == Count(matches, pattern, procs[..i])
      {
        assert procs[..i + 1][..i] == procs[..i];
        if matches(pattern, procs[i].procLabel) {
          absolute := absolute + 1;
        }
      }
      assert procs[..|procs|] == procs;
      k := Required(absolute, fraction);
    }

    // init_process_requirements
    method ReadRequirements(lines: seq<Line>) returns (error: Option<ListError>)
      modifies this`requirements
      ensures error == None
              ==> |requirements| == |Rules(lines)| && Accurate(matches, procs, requirements) && Healthy(requirements)
      ensures error == None
              ==> forall i :: 0 <= i < |requirements| ==> Stands(matches, procs, Rules(lines)[i], requirements[i])
      ensures error == None <==> forall i :: 0 <= i < |lines| ==> Acceptable(matches, procs, lines[i])
      ensures error.Some? ==> FirstTrouble(matches, procs, lines, error.value)
    {
      requirements := [];
      for i := 0 to |lines|
        invariant forall j :: 0 <= j < i ==> Acceptable(matches, procs, lines[j])
        invariant |requirements| == |Rules(lines[..i])|
        invariant forall j :: 0 <= j < |requirements| ==> Stands(matches, procs, Rules(lines[..i])[j], requirements[j])
      {
        assert lines[..i + 1][..i] == lines[..i];
        match lines[i] {
          case Blank =>
          case Malformed =>
            return Some(BadLine(i));
          case Rule(pattern, fraction, count) =>
            var strictest := NumRequired(pattern, fraction);
            if strictest <= count {
              strictest := count;
            }
            var starting := NumRequired(pattern, 1.0);
            RequiredRoundsUp(Count(matches, pattern, procs), 1.0);
            if starting < strictest {
              return Some(TooFew(i));
            }
            requirements := requirements + [Requirement(pattern, starting, strictest, starting)];
        }
      }
      assert lines[..|lines|] == lines;
      error := None;
    }

    // throw_exception_if_losing_process_violates_requirements
    method Lose(p: Member) returns (raised: bool)
      modifies this`requirements
      ensures raised == EndsRun(matches, old(requirements), p, procs)
      ensures !raised ==> requirements == Counted(matches, old(requirements), p, |old(requirements)|)
      ensures raised && Covered(matches, old(requirements), p) ==>
        exists i :: 0 <= i < |old(requirements)| && Breaks(matches, old(requirements)[i], p)
          && (forall j :: 0 <= j < i ==> !Breaks(matches, old(requirements)[j], p))
          && requirements == Counted(matches, old(requirements), p, i + 1)
      ensures !Covered(matches, old(requirements), p) ==>
        requirements == old(requirements) && (raised <==> Indispensable(p, procs))
    {
      var matched := false;
      ghost var rs := requirements;
      assert requirements == Counted(matches, rs, p, 0);
      for i := 0 to |requirements|
        invariant requirements == Counted(matches, rs, p, i)
        invariant matched <==> exists j :: 0 <= j < i && Hit(matches, rs[j], p)
        invariant forall j :: 0 <= j < i ==> !Breaks(matches, rs[j], p)
      {
        var r := requirements[i];
        assert r == rs[i];
        if matches(r.pattern, p.procLabel) {
          matched := true;
          requirements := requirements[i := r.(current := r.current - 1)];
          assert requirements == Counted(matches, rs, p, i + 1);
          if r.current - 1 < r.minimum {
            assert Breaks(matches, rs[i], p);
            return true;
          }
        }
        assert requirements == Counted(matches, rs, p, i + 1);
      }
      CriticalExactly(p, procs);
      raised := !matched && Critical(p, procs);
    }

    // The heartbeat check in a running system: lost processes are removed one by one.
    method RemoveLost(lost: seq<Member>) returns (raised: bool)
      requires Removable(procs, lost)
      modifies this
      ensures raised <==> exists k :: 0 <= k < |lost| && EndsAt(matches, old(procs), old(requirements), lost, k)
      ensures Accurate(matches, old(procs), old(requirements)) && Healthy(old(requirements)) ==>
        (raised <==> || TooFewLeft(matches, old(procs), old(requirements), lost)
                     || (exists k :: 0 <= k < |lost| && CriticalLoss(matches, old(procs), old(requirements), lost, k)))
      ensures raised ==> (exists k ::
        && 0 <= k < |lost| && EndsAt(matches, old(procs), old(requirements), lost, k)
        && (forall j :: 0 <= j < k ==> !EndsAt(matches, old(procs), old(requirements), lost, j))
        && procs == ProcsAfter(old(procs), lost, k + 1))
      ensures !raised ==> procs == ProcsAfter(old(procs), lost, |lost|)
      ensures !raised ==> requirements == RulesAfter(matches, old(requirements), lost, |lost|)
    {
      ghost var before, rules := procs, requirements;
      if Accurate(matches, procs, requirements) && Healthy(requirements) {
        EndsExactly(matches, procs, requirements, lost);
      }
      for k := 0 to |lost|
        invariant procs == ProcsAfter(before, lost, k) && requirements == RulesAfter(matches, rules, lost, k)
        invariant forall j :: 0 <= j < k ==> !EndsAt(matches, before, rules, lost, j)
      {
        procs := Without(procs, lost[k]);
        raised := Lose(lost[k]);
        if raised {
          assert EndsAt(matches, before, rules, lost, k);
          return;
        }
      }
      raised := false;
    }
  }
}
