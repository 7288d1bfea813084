/** Whom each process receives from and sends to: the `sources` and `destinations` tables. */
module Wiring {
  import opened Wrappers
  import opened SubsystemGraph
  import opened Processes

  datatype NodeType = Sources | Destinations

  // The transfer plugins configured for board readers, event builders, data loggers and the rest.
  datatype Transfers = Transfers(br: string, eb: string, dl: string, other: string)

  datatype Setup = Setup(
    g: Subsystems,
    procs: seq<Process>,
    transfers: Transfers,
    advanced: bool,
    fragmentSizes: map<string, nat>,  // of board readers, by label; only with advanced memory usage
    maxFragmentSize: nat,
    eventSizes: map<Id, nat>)
  {
    // What the earlier part of bookkeeping has established.
    ghost predicate Valid() {
      && g.Valid()
      && eventSizes.Keys == g.table.Keys
      && (advanced ==> forall p :: p in procs && p.kind == BoardReader ==> p.procLabel in fragmentSizes)
    }
  }

  // One entry of a table; `hostMap` tells whether it carries the host map.
  datatype Node = Node(peer: Process, transfer: string, words: nat, hostMap: bool)

  // ----- the flow of data between processes

  predicate HasLoggers(procs: seq<Process>, ss: Id) {
    exists i :: 0 <= i < |procs| && procs[i].subsystem == ss && procs[i].kind == DataLogger
  }

  // Which types send to which, in a subsystem with or without data loggers.
  predicate TypeSends(hasLoggers: bool, a: ProcType, b: ProcType) {
    match a
    case BoardReader => b == EventBuilder
    case EventBuilder => b == DataLogger || (b == Dispatcher && !hasLoggers)
    case DataLogger => b == Dispatcher
    case _ => false
  }

  predicate SendsWithin(s: Setup, a: Process, b: Process) {
    a.subsystem == b.subsystem && TypeSends(HasLoggers(s.procs, a.subsystem), a.kind, b.kind)
  }

  predicate SendsAcross(s: Setup, a: Process, b: Process) {
    && a.kind == EventBuilder && b.kind == EventBuilder
    && a.subsystem in s.g.table && b.subsystem != ""
    && s.g.table[a.subsystem].destination == Some(b.subsystem)
  }

  // Whom a table of process p has to list; `inter` asks for a table inside a sender to other subsystems.
  predicate Listed(s: Setup, p: Process, nodeType: NodeType, inter: bool, q: Process) {
    match nodeType
    case Destinations => if inter then SendsAcross(s, p, q) else SendsWithin(s, p, q)
    case Sources => SendsAcross(s, q, p) || (!inter && SendsWithin(s, q, p))
  }

  // ----- sorting by rank

  ghost predicate ByRank(l: seq<Process>) {
    forall i, j :: 0 <= i < j < |l| ==> l[i].rank <= l[j].rank
  }

  function Insert(p: Process, l: seq<Process>): (r: seq<Process>)
    ensures multiset(r) == multiset(l) + multiset{p}
  {
    if l == [] || p.rank < l[0].rank then [p] + l
    else
      assert l == [l[0]] + l[1..];
      [l[0]] + Insert(p, l[1..])
  }

  lemma {:induction false} InsertByRank(p: Process, l: seq<Process>)
    requires ByRank(l)
    ensures ByRank(Insert(p, l))
    ensures Insert(p, l)[0].rank == if l == [] || p.rank < l[0].rank then p.rank else l[0].rank
  {
    if l == [] || p.rank < l[0].rank {
      FirstByRank(p, l);
    } else {
      InsertByRank(p, l[1..]);
      FirstByRank(l[0], Insert(p, l[1..]));
    }
  }

  lemma FirstByRank(p: Process, l: seq<Process>)
    requires ByRank(l) && (l != [] ==> p.rank <= l[0].rank)
    ensures ByRank([p] + l)
  {
  }

  // sorted(..., key=lambda p: p.rank), which is stable
  function SortByRank(l: seq<Process>): (r: seq<Process>)
    ensures multiset(r) == multiset(l)
  {
    if l == [] then []
    else
      assert l == l[..|l| - 1] + [l[|l| - 1]];
      Insert(l[|l| - 1], SortByRank(l[..|l| - 1]))
  }

  lemma {:induction false} SortByRankSorts(l: seq<Process>)
    ensures ByRank(SortByRank(l))
  {
    if l != [] {
      SortByRankSorts(l[..|l| - 1]);
      InsertByRank(l[|l| - 1], SortByRank(l[..|l| - 1]));
    }
  }

  function OfType(l: seq<Process>, ss: Id, k: ProcType): seq<Process> {
    if l == [] then []
    else
      var last := l[|l| - 1];
      OfType(l[..|l| - 1], ss, k) + if last.subsystem == ss && last.kind == k then [last] else []
  }

  lemma {:induction false} OfTypeCounts(l: seq<Process>, ss: Id, k: ProcType, q: Process)
    ensures multiset(OfType(l, ss, k))[q] == if q.subsystem == ss && q.kind == k then multiset(l)[q] else 0
  {
    if l != [] {
      assert l == l[..|l| - 1] + [l[|l| - 1]];
      OfTypeCounts(l[..|l| - 1], ss, k, q);
    }
  }

  lemma {:induction false} OfTypeByRank(l: seq<Process>, ss: Id, k: ProcType)
    requires ByRank(l)
    ensures ByRank(OfType(l, ss, k)) && forall i :: 0 <= i < |OfType(l, ss, k)| ==> OfType(l, ss, k)[i] in l
  {
    if l != [] { OfTypeByRank(l[..|l| - 1], ss, k); }
  }

  // ----- the lookup tables

  type ByType = map<(Id, ProcType), seq<Process>>

  // What the tables of all processes are made from: processes by subsystem and type, event
  // builders in other subsystems to send to and to receive from, and where data loggers are.
  datatype Lookup = Lookup(byType: ByType, toOther: map<Id, seq<Process>>, fromOther: map<Id, seq<Process>>,
                           loggers: map<Id, bool>)

  function Get(m: ByType, ss: Id, k: ProcType): seq<Process> {
    if (ss, k) in m then m[(ss, k)] else []
  }

  // The list holds each process as often as the run does, if it is of the given type, and no other.
  ghost predicate CountsType(procs: seq<Process>, l: seq<Process>, ss: Id, k: ProcType) {
    forall q :: multiset(l)[q] == if q.subsystem == ss && q.kind == k then multiset(procs)[q] else 0
  }

  ghost predicate CountsTo(s: Setup, l: seq<Process>, ss: Id)
    requires ss in s.g.table
  {
    forall q :: multiset(l)[q] ==
      if q.kind == EventBuilder && q.subsystem != "" && s.g.table[ss].destination == Some(q.subsystem)
      then multiset(s.procs)[q] else 0
  }

  predicate FeedsInto(s: Setup, q: Process, ss: Id) {
    q.kind == EventBuilder && q.subsystem in s.g.table && s.g.table[q.subsystem].destination == Some(ss)
  }

  // Of the processes in the given subsystems only.
  ghost predicate CountsFrom(s: Setup, l: seq<Process>, ss: Id, among: seq<Id>) {
    forall q :: multiset(l)[q] == if FeedsInto(s, q, ss) && q.subsystem in among then multiset(s.procs)[q] else 0
  }

  ghost predicate TypesRight(s: Setup, m: ByType) {
    forall ss, k :: CountsType(s.procs, Get(m, ss, k), ss, k) && ByRank(Get(m, ss, k))
  }

  ghost predicate Right(s: Setup, t: Lookup) {
    && TypesRight(s, t.byType)
    && t.toOther.Keys == t.fromOther.Keys == t.loggers.Keys == s.g.table.Keys
    && (forall ss :: ss in s.g.table ==> CountsTo(s, t.toOther[ss], ss))
    && (forall ss :: ss in s.g.table ==> CountsFrom(s, t.fromOther[ss], ss, s.g.order))
    && (forall ss :: ss in s.g.table ==> t.loggers[ss] == HasLoggers(s.procs, ss))
  }

  method GroupByType(s: Setup) returns (m: ByType)
    ensures TypesRight(s, m)
  {
    var sorted := SortByRank(s.procs);
    m := GroupSorted(sorted);
    SortByRankSorts(s.procs);
    forall ss, k ensures CountsType(s.procs, Get(m, ss, k), ss, k) && ByRank(Get(m, ss, k)) {
      OfTypeRight(s.procs, sorted, ss, k);
    }
  }

  method GroupSorted(sorted: seq<Process>) returns (m: ByType)
    ensures forall ss, k :: Get(m, ss, k) == OfType(sorted, ss, k)
  {
    m := map[];
    for i := 0 to |sorted|
      invariant forall ss, k :: Get(m, ss, k) == OfType(sorted[..i], ss, k)
    {
      var p := sorted[i];
      assert sorted[..i + 1][..i] == sorted[..i];
      m := m[(p.subsystem, p.kind) := Get(m, p.subsystem, p.kind) + [p]];
    }
    assert sorted[..|sorted|] == sorted;
  }

  lemma OfTypeRight(procs: seq<Process>, sorted: seq<Process>, ss: Id, k: ProcType)
    requires multiset(sorted) == multiset(procs) && ByRank(sorted)
    ensures CountsType(procs, OfType(sorted, ss, k), ss, k) && ByRank(OfType(sorted, ss, k))
  {
    forall q
      ensures multiset(OfType(sorted, ss, k))[q] == if q.subsystem == ss && q.kind == k then multiset(procs)[q] else 0 {
      OfTypeCounts(sorted, ss, k, q);
    }
    OfTypeByRank(sorted, ss, k);
  }

  // The event builders of the subsystems that send to ss.
  method BuildersFeeding(s: Setup, m: ByType, ss: Id) returns (l: seq<Process>)
    requires s.g.Valid() && TypesRight(s, m)
    ensures CountsFrom(s, l, ss, s.g.order)
  {
    l := [];
    for i := 0 to |s.g.order|
      invariant CountsFrom(s, l, ss, s.g.order[..i])
    {
      var other := s.g.order[i];
      assert other !in s.g.order[..i];
      if s.g.table[other].destination == Some(ss) {
        assert CountsType(s.procs, Get(m, other, EventBuilder), other, EventBuilder);
        l := l + Get(m, other, EventBuilder);
      }
    }
    assert s.g.order[..|s.g.order|] == s.g.order;
    l := SortByRank(l);
  }

  // The event builders of the subsystem that ss sends to.
  method BuildersFed(s: Setup, m: ByType, ss: Id) returns (l: seq<Process>)
    requires ss in s.g.table && TypesRight(s, m)
    ensures CountsTo(s, l, ss)
  {
    var destination := s.g.table[ss].destination;
    if destination.Some? && destination.value != "" {
      assert CountsType(s.procs, Get(m, destination.value, EventBuilder), destination.value, EventBuilder);
      l := Get(m, destination.value, EventBuilder);
    } else {
      l := [];
    }
  }

  method BuildLookup(s: Setup) returns (t: Lookup)
    requires s.g.Valid()
    ensures Right(s, t)
  {
    var m := GroupByType(s);
    var toOther, fromOther := map[], map[];
    for i := 0 to |s.g.order|
      invariant forall ss :: ss in toOther <==> ss in s.g.order[..i]
      invariant toOther.Keys == fromOther.Keys
      invariant forall ss ::
                ss in toOther ==> CountsTo(s, toOther[ss], ss) && CountsFrom(s, fromOther[ss], ss, s.g.order)
    {
      var ss := s.g.order[i];
      var fed := BuildersFed(s, m, ss);
      var feeding := BuildersFeeding(s, m, ss);
      toOther, fromOther := toOther[ss := fed], fromOther[ss := feeding];
    }
    assert s.g.order[..|s.g.order|] == s.g.order;
    var loggers := LoggersBySubsystem(s);
    t := Lookup(m, toOther, fromOther, loggers);
  }

  method LoggersBySubsystem(s: Setup) returns (m: map<Id, bool>)
    requires s.g.Valid()
    ensures m.Keys == s.g.table.Keys
    ensures forall ss :: ss in m ==> m[ss] == HasLoggers(s.procs, ss)
  {
    m := map[];
    for i := 0 to |s.g.order|
      invariant forall ss :: ss in m <==> ss in s.g.order[..i]
      invariant forall ss :: ss in m ==> m[ss] == HasLoggers(s.procs, ss)
    {
      m := m[s.g.order[i] := HasLoggers(s.procs, s.g.order[i])];
    }
    assert s.g.order[..|s.g.order|] == s.g.order;
  }

  // ----- one table

  // The list holds exactly the processes the table has to list, each once for every time it is in the run.
  ghost predicate ListsExactly(s: Setup, p: Process, nodeType: NodeType, inter: bool, l: seq<Process>) {
    forall q :: multiset(l)[q] == if Listed(s, p, nodeType, inter, q) then multiset(s.procs)[q] else 0
  }

  method Peers(s: Setup, t: Lookup, p: Process, nodeType: NodeType, inter: bool) returns (l: seq<Process>)
    requires s.g.Valid() && Right(s, t) && p.subsystem in s.g.table
    ensures ListsExactly(s, p, nodeType, inter, l) && ByRank(l)
  {
    l := [];
    if !inter {
      l := PeersWithin(s, t.byType, t.loggers[p.subsystem], p, nodeType);
    }
    ghost var within := l;
    if p.kind == EventBuilder && (inter || nodeType == Sources) {
      var others := if nodeType == Destinations then t.toOther[p.subsystem] else t.fromOther[p.subsystem];
      AcrossExactly(s, t, p, nodeType, others);
      SortByRankSorts(l + others);
      l := SortByRank(l + others);
      Together(s, p, nodeType, inter, within, others, l);
    } else {
      NoneAcross(s, p, nodeType, inter, l);
    }
  }

  // The process at the other end, as a sender or as a receiver.
  predicate Within(s: Setup, p: Process, nodeType: NodeType, q: Process) {
    if nodeType == Sources then SendsWithin(s, q, p) else SendsWithin(s, p, q)
  }

  predicate Across(s: Setup, p: Process, nodeType: NodeType, q: Process) {
    if nodeType == Sources then SendsAcross(s, q, p) else SendsAcross(s, p, q)
  }

  ghost predicate ListsWithin(s: Setup, p: Process, nodeType: NodeType, l: seq<Process>) {
    forall q :: multiset(l)[q] == if Within(s, p, nodeType, q) then multiset(s.procs)[q] else 0
  }

  ghost predicate ListsAcross(s: Setup, p: Process, nodeType: NodeType, l: seq<Process>) {
    forall q :: multiset(l)[q] == if Across(s, p, nodeType, q) then multiset(s.procs)[q] else 0
  }

  lemma AcrossExactly(s: Setup, t: Lookup, p: Process, nodeType: NodeType, l: seq<Process>)
    requires s.g.Valid() && Right(s, t) && p.subsystem in s.g.table && p.kind == EventBuilder
    requires l == if nodeType == Destinations then t.toOther[p.subsystem] else t.fromOther[p.subsystem]
    ensures ListsAcross(s, p, nodeType, l)
  {
    if nodeType == Destinations {
      assert CountsTo(s, l, p.subsystem);
    } else {
      assert CountsFrom(s, l, p.subsystem, s.g.order);
    }
  }

  lemma Together(s: Setup, p: Process, nodeType: NodeType, inter: bool, within: seq<Process>, across: seq<Process>,
                 l: seq<Process>)
    requires ListsAcross(s, p, nodeType, across) && multiset(l) == multiset(within) + multiset(across)
    requires inter || nodeType == Sources
    requires if inter then within == [] else ListsWithin(s, p, nodeType, within)
    ensures ListsExactly(s, p, nodeType, inter, l)
  {
  }

  lemma NoneAcross(s: Setup, p: Process, nodeType: NodeType, inter: bool, l: seq<Process>)
    requires p.kind != EventBuilder || (!inter && nodeType == Destinations)
    requires if inter then l == [] else ListsWithin(s, p, nodeType, l)
    ensures ListsExactly(s, p, nodeType, inter, l)
  {
  }

  // Whether processes of the type are wanted, in the subsystem of p.
  predicate WantsType(hasLoggers: bool, p: ProcType, nodeType: NodeType, k: ProcType) {
    if nodeType == Sources then TypeSends(hasLoggers, k, p) else TypeSends(hasLoggers, p, k)
  }

  lemma OneType(s: Setup, p: Process, nodeType: NodeType, l: seq<Process>, k: ProcType)
    requires CountsType(s.procs, l, p.subsystem, k)
    requires forall x :: WantsType(HasLoggers(s.procs, p.subsystem), p.kind, nodeType, x) <==> x == k
    ensures ListsWithin(s, p, nodeType, l)
  {
    forall q ensures Within(s, p, nodeType, q) <==> q.subsystem == p.subsystem && q.kind == k {
      assert WantsType(HasLoggers(s.procs, p.subsystem), p.kind, nodeType, q.kind) <==> q.kind == k;
    }
  }

  lemma TwoTypes(s: Setup, p: Process, nodeType: NodeType, a: seq<Process>, b: seq<Process>, j: ProcType, k: ProcType)
    requires CountsType(s.procs, a, p.subsystem, j) && CountsType(s.procs, b, p.subsystem, k) && j != k
    requires forall x :: WantsType(HasLoggers(s.procs, p.subsystem), p.kind, nodeType, x) <==> x == j || x == k
    ensures ListsWithin(s, p, nodeType, SortByRank(a + b))
  {
    forall q ensures Within(s, p, nodeType, q) <==> q.subsystem == p.subsystem && (q.kind == j || q.kind == k) {
      assert WantsType(HasLoggers(s.procs, p.subsystem), p.kind, nodeType, q.kind) <==> q.kind == j || q.kind == k;
    }
    assert multiset(SortByRank(a + b)) == multiset(a) + multiset(b);
  }

  lemma NoType(s: Setup, p: Process, nodeType: NodeType)
    requires forall x :: !WantsType(HasLoggers(s.procs, p.subsystem), p.kind, nodeType, x)
    ensures ListsWithin(s, p, nodeType, [])
  {
    forall q ensures !Within(s, p, nodeType, q) {
      assert !WantsType(HasLoggers(s.procs, p.subsystem), p.kind, nodeType, q.kind);
    }
  }

  method OfOneType(s: Setup, m: ByType, loggers: bool, p: Process, nodeType: NodeType, k: ProcType)
    returns (l: seq<Process>)
    requires TypesRight(s, m) && loggers == HasLoggers(s.procs, p.subsystem)
    requires forall x :: WantsType(loggers, p.kind, nodeType, x) <==> x == k
    ensures ListsWithin(s, p, nodeType, l) && ByRank(l)
  {
    l := Get(m, p.subsystem, k);
    assert CountsType(s.procs, l, p.subsystem, k);
    OneType(s, p, nodeType, l, k);
  }

  // The data loggers and, without data loggers, processes of type k.
  method LoggersOr(s: Setup, m: ByType, loggers: bool, p: Process, nodeType: NodeType, k: ProcType)
    returns (l: seq<Process>)
    requires TypesRight(s, m) && loggers == HasLoggers(s.procs, p.subsystem) && k != DataLogger
    requires forall x :: WantsType(loggers, p.kind, nodeType, x) <==> x == DataLogger || (x == k && !loggers)
    ensures ListsWithin(s, p, nodeType, l) && ByRank(l)
  {
    var a, b := Get(m, p.subsystem, DataLogger), Get(m, p.subsystem, k);
    assert CountsType(s.procs, a, p.subsystem, DataLogger) && CountsType(s.procs, b, p.subsystem, k);
    if loggers {
      OneType(s, p, nodeType, a, DataLogger);
      l := a;
    } else {
      TwoTypes(s, p, nodeType, a, b, DataLogger, k);
      l := a + b;
    }
    SortByRankSorts(l);
    l := SortByRank(l);
  }

  method PeersWithin(s: Setup, m: ByType, loggers: bool, p: Process, nodeType: NodeType) returns (l: seq<Process>)
    requires TypesRight(s, m) && loggers == HasLoggers(s.procs, p.subsystem)
    ensures ListsWithin(s, p, nodeType, l) && ByRank(l)
  {
    match (p.kind, nodeType) {
      case (BoardReader, Destinations) =>
        l := OfOneType(s, m, loggers, p, nodeType, EventBuilder);
      case (EventBuilder, Sources) =>
        l := OfOneType(s, m, loggers, p, nodeType, BoardReader);
      case (EventBuilder, Destinations) =>
        l := LoggersOr(s, m, loggers, p, nodeType, Dispatcher);
      case (DataLogger, Sources) =>
        l := OfOneType(s, m, loggers, p, nodeType, EventBuilder);
      case (DataLogger, Destinations) =>
        l := OfOneType(s, m, loggers, p, nodeType, Dispatcher);
      case (Dispatcher, Sources) =>
        l := LoggersOr(s, m, loggers, p, nodeType, EventBuilder);
      case _ =>
        NoType(s, p, nodeType);
        l := [];
    }
  }

  // ----- the entries of a table

  function FragmentWords(s: Setup, p: Process): nat
    requires s.Valid() && p in s.procs && p.kind == BoardReader
  {
    (if s.advanced then s.fragmentSizes[p.procLabel] else s.maxFragmentSize) / 8
  }

  // The event size of p: what bookkeeping computed for its subsystem, unless, without advanced
  // memory usage, its own FHiCL document sets one.
  function EventWords(s: Setup, p: Process): nat
    requires s.Valid() && p.subsystem in s.g.table
  {
    (if !s.advanced && p.sizeInFhicl.Some? then p.sizeInFhicl.value else s.eventSizes[p.subsystem]) / 8
  }

  function Plugin(t: Transfers, p: Process, q: Process): string {
    if p.kind == BoardReader || q.kind == BoardReader then t.br
    else if p.kind == EventBuilder || q.kind == EventBuilder then t.eb
    else if p.kind == DataLogger || q.kind == DataLogger then t.dl
    else t.other
  }

  // Whether the entries have buffers of different sizes.
  predicate SizedBySource(p: Process, nodeType: NodeType) {
    p.kind == EventBuilder && nodeType == Sources
  }

  // The buffer size in the entry for q in a table of p.
  function BufferWords(s: Setup, p: Process, nodeType: NodeType, q: Process): nat
    requires s.Valid() && p in s.procs && q in s.procs && p.subsystem in s.g.table
    requires SizedBySource(p, nodeType) && q.kind != BoardReader ==> q.subsystem in s.g.table
  {
    if p.kind == BoardReader then FragmentWords(s, p)
    else if SizedBySource(p, nodeType) then
      if q.kind == BoardReader then FragmentWords(s, q) else s.eventSizes[q.subsystem] / 8
    else EventWords(s, p)
  }

  // The table as it should be.
  ghost predicate IsTable(s: Setup, p: Process, nodeType: NodeType, inter: bool, nodes: seq<Node>)
    requires s.Valid() && p in s.procs && p.subsystem in s.g.table
  {
    ListsExactly(s, p, nodeType, inter, PeersOf(nodes)) && ByRank(PeersOf(nodes)) && AreEntries(s, p, nodeType, nodes)
  }

  // The first entry carries the host map.
  ghost predicate AreEntries(s: Setup, p: Process, nodeType: NodeType, nodes: seq<Node>)
    requires s.Valid() && p in s.procs && p.subsystem in s.g.table
  {
    forall i :: 0 <= i < |nodes| ==> IsEntry(s, p, nodeType, nodes[i]) && nodes[i].hostMap == (i == 0)
  }

  lemma AddEntry(s: Setup, p: Process, nodeType: NodeType, nodes: seq<Node>, n: Node)
    requires s.Valid() && p in s.procs && p.subsystem in s.g.table && AreEntries(s, p, nodeType, nodes)
    requires IsEntry(s, p, nodeType, n) && n.hostMap == (nodes == [])
    ensures AreEntries(s, p, nodeType, nodes + [n]) && PeersOf(nodes + [n]) == PeersOf(nodes) + [n.peer]
  {
    var more := nodes + [n];
    assert more[..|nodes|] == nodes;
    forall i | 0 <= i < |more| ensures IsEntry(s, p, nodeType, more[i]) && more[i].hostMap == (i == 0) {
      if i < |nodes| { assert more[i] == nodes[i]; }
    }
  }

  ghost predicate IsEntry(s: Setup, p: Process, nodeType: NodeType, n: Node)
    requires s.Valid() && p in s.procs && p.subsystem in s.g.table
  {
    && n.peer in s.procs
    && (SizedBySource(p, nodeType) && n.peer.kind != BoardReader ==> n.peer.subsystem in s.g.table)
    && n.transfer == Plugin(s.transfers, p, n.peer)
    && n.words == BufferWords(s, p, nodeType, n.peer)
  }

  function PeersOf(nodes: seq<Node>): (r: seq<Process>)
    ensures |r| == |nodes| && forall i :: 0 <= i < |r| ==> r[i] == nodes[i].peer
  {
    if nodes == [] then [] else PeersOf(nodes[..|nodes| - 1]) + [nodes[|nodes| - 1].peer]
  }

  // Every process listed is in the run, and an event builder hears of no type but two.
  lemma ListedPeers(s: Setup, p: Process, nodeType: NodeType, inter: bool, l: seq<Process>, i: nat)
    requires ListsExactly(s, p, nodeType, inter, l) && i < |l| && p.subsystem in s.g.table
    ensures l[i] in s.procs && Listed(s, p, nodeType, inter, l[i])
    ensures p.kind == EventBuilder && nodeType == Sources
            ==> l[i].kind == BoardReader || (l[i].kind == EventBuilder && l[i].subsystem in s.g.table)
  {
    assert l[i] in l && l[i] in multiset(l);
  }

  // One table of one process; None where the lookup of the process's subsystem fails.
  method CreateTable(s: Setup, t: Lookup, p: Process, nodeType: NodeType, inter: bool) returns (r: Option<seq<Node>>)
    requires s.Valid() && Right(s, t) && p in s.procs
    ensures r.Some? <==> p.subsystem in s.g.table
    ensures r.Some? ==> IsTable(s, p, nodeType, inter, r.value)
  {
    if p.subsystem !in s.g.table {
      return None;
    }
    var peers := Peers(s, t, p, nodeType, inter);
    forall i | 0 <= i < |peers| ensures MayList(s, p, nodeType, peers[i]) {
      ListedPeers(s, p, nodeType, inter, peers, i);
    }
    var nodes := Entries(s, p, nodeType, peers);
    r := Some(nodes);
  }

  ghost predicate MayList(s: Setup, p: Process, nodeType: NodeType, q: Process) {
    q in s.procs &&
      (SizedBySource(p, nodeType) ==> q.kind == BoardReader || (q.kind == EventBuilder && q.subsystem in s.g.table))
  }

  method Entries(s: Setup, p: Process, nodeType: NodeType, peers: seq<Process>) returns (nodes: seq<Node>)
    requires s.Valid() && p in s.procs && p.subsystem in s.g.table
    requires forall i :: 0 <= i < |peers| ==> MayList(s, p, nodeType, peers[i])
    ensures PeersOf(nodes) == peers && AreEntries(s, p, nodeType, nodes)
  {
    var words: int := -1;
    if p.kind == BoardReader {
      words := FragmentWords(s, p);
    } else if !SizedBySource(p, nodeType) {
      words := EventWords(s, p);
    }
    ghost var fixed := words;
    nodes := [];
    assert peers[..|peers|] == peers;
    for i := 0 to |peers|
      invariant SizedBySource(p, nodeType) || words == fixed
      invariant PeersOf(nodes) == peers[..i] && AreEntries(s, p, nodeType, nodes)
    {
      var node: Node;
      node, words := Entry(s, p, nodeType, peers[i], words, i == 0);
      AddEntry(s, p, nodeType, nodes, node);
      OneMorePeer(peers, i);
      nodes := nodes + [node];
    }
  }

  lemma OneMorePeer(peers: seq<Process>, i: nat)
    requires i < |peers|
    ensures peers[..i + 1] == peers[..i] + [peers[i]] && peers[..|peers|] == peers
  {
  }

  method Entry(s: Setup, p: Process, nodeType: NodeType, q: Process, words: int, first: bool)
    returns (node: Node, used: int)
    requires s.Valid() && p in s.procs && p.subsystem in s.g.table && MayList(s, p, nodeType, q)
    requires || SizedBySource(p, nodeType)
             || words == if p.kind == BoardReader then FragmentWords(s, p) else EventWords(s, p)
    ensures IsEntry(s, p, nodeType, node) && node.peer == q && node.hostMap == first
    ensures SizedBySource(p, nodeType) || used == words
  {
    used := words;
    if SizedBySource(p, nodeType) {
      used := if q.kind == BoardReader then FragmentWords(s, q) else s.eventSizes[q.subsystem] / 8;
    }
    node := Node(q, Plugin(s.transfers, p, q), used, first);
  }

  // ----- both ends of a connection

  ghost predicate HasPeer(nodes: seq<Node>, q: Process) {
    exists i :: 0 <= i < |nodes| && nodes[i].peer == q
  }

  lemma PeerListed(s: Setup, p: Process, nodeType: NodeType, inter: bool, nodes: seq<Node>, q: Process)
    requires s.Valid() && p in s.procs && p.subsystem in s.g.table && IsTable(s, p, nodeType, inter, nodes) &&
             q in s.procs
    ensures HasPeer(nodes, q) <==> Listed(s, p, nodeType, inter, q)
  {
    var l := PeersOf(nodes);
    assert multiset(l)[q] == if Listed(s, p, nodeType, inter, q) then multiset(s.procs)[q] else 0;
    assert q in multiset(s.procs);
    if HasPeer(nodes, q) {
      var i :| 0 <= i < |nodes| && nodes[i].peer == q;
      assert l[i] == q && q in l && q in multiset(l);
    }
    if q in l {
      var i :| 0 <= i < |l| && l[i] == q;
      assert nodes[i].peer == q;
    }
  }

  // b is in a destinations table of a exactly when a is in the sources table of b.
  lemma Duality(s: Setup, a: Process, b: Process, within: seq<Node>, across: seq<Node>, sources: seq<Node>)
    requires s.Valid() && a in s.procs && b in s.procs && a.subsystem in s.g.table && b.subsystem in s.g.table
    requires IsTable(s, a, Destinations, false, within) && IsTable(s, a, Destinations, true, across)
    requires IsTable(s, b, Sources, false, sources)
    ensures HasPeer(within, b) || HasPeer(across, b) <==> HasPeer(sources, a)
  {
    PeerListed(s, a, Destinations, false, within, b);
    PeerListed(s, a, Destinations, true, across, b);
    PeerListed(s, b, Sources, false, sources, a);
  }

  // Two event sizes fill the same number of whole words.
  predicate SameWords(a: nat, b: nat) {
    a / 8 == b / 8
  }

  // The sizes the documents of both ends set, or that of the sender's subsystem, agree.  An event
  // builder that receives goes by the size of the sender's subsystem, whatever the documents set.
  predicate SizesAgree(s: Setup, a: Process, b: Process)
    requires s.Valid() && a.subsystem in s.g.table
  {
    var size := s.eventSizes[a.subsystem];
    match (a.sizeInFhicl, b.sizeInFhicl)
    case (None, None) => true
    case (None, Some(y)) => b.kind == EventBuilder || SameWords(size, y)
    case (Some(x), None) => SameWords(x, size)
    case (Some(x), Some(y)) => if b.kind == EventBuilder then SameWords(x, size) else SameWords(x, y)
  }

  // Both ends name the same plugin.  With advanced memory usage both have the same buffer size, and so
  // do board readers and their event builders; without it, others do exactly if the sizes set in the
  // FHiCL documents agree.
  lemma EndsAgree(s: Setup, a: Process, b: Process, inter: bool, m: Node, n: Node)
    requires s.Valid() && a in s.procs && b in s.procs && a.subsystem in s.g.table && b.subsystem in s.g.table
    requires Listed(s, a, Destinations, inter, b)
    requires IsEntry(s, a, Destinations, m) && m.peer == b && IsEntry(s, b, Sources, n) && n.peer == a
    ensures m.transfer == n.transfer
    ensures s.advanced || a.kind == BoardReader ==> m.words == n.words
    ensures !s.advanced && a.kind != BoardReader ==> (m.words == n.words <==> SizesAgree(s, a, b))
  {
    if b.kind != EventBuilder { assert a.subsystem == b.subsystem; }
  }

  // Who sends to whom, spelled out: board readers to the event builders of their subsystem; event builders to
  // its data loggers, to its dispatchers if it has no data logger, and to the event builders of the
  // subsystem's destination; data loggers to its dispatchers.
  lemma FlowSpelled(s: Setup, a: Process, b: Process)
    requires s.g.Valid() && a in s.procs && b in s.procs && a.subsystem in s.g.table && b.subsystem in s.g.table
    ensures Listed(s, a, Destinations, false, b) || Listed(s, a, Destinations, true, b) <==>
      || (a.kind == BoardReader && b.kind == EventBuilder && a.subsystem == b.subsystem)
      || (a.kind == EventBuilder && b.kind == DataLogger && a.subsystem == b.subsystem)
      || (a.kind == EventBuilder && b.kind == Dispatcher && a.subsystem == b.subsystem
          && forall p :: p in s.procs && p.subsystem == a.subsystem ==> p.kind != DataLogger)
      || (a.kind == DataLogger && b.kind == Dispatcher && a.subsystem == b.subsystem)
      || (a.kind == EventBuilder && b.kind == EventBuilder && s.g.table[a.subsystem].destination == Some(b.subsystem))
  {
    if HasLoggers(s.procs, a.subsystem) {
      var i :| 0 <= i < |s.procs| && s.procs[i].subsystem == a.subsystem && s.procs[i].kind == DataLogger;
      assert s.procs[i] in s.procs;
    }
  }

  // The plugin of a connection is the one configured for its sender, and only board readers, event
  // builders and data loggers send.
  lemma PluginOfSender(s: Setup, a: Process, b: Process, inter: bool, m: Node, n: Node)
    requires s.Valid() && a in s.procs && b in s.procs && a.subsystem in s.g.table && b.subsystem in s.g.table
    requires Listed(s, a, Destinations, inter, b)
    requires IsEntry(s, a, Destinations, m) && m.peer == b && IsEntry(s, b, Sources, n) && n.peer == a
    ensures || (a.kind == BoardReader && m.transfer == s.transfers.br == n.transfer)
            || (a.kind == EventBuilder && m.transfer == s.transfers.eb == n.transfer)
            || (a.kind == DataLogger && m.transfer == s.transfers.dl == n.transfer)
  {
  }

  // A board reader's buffers hold the largest fragment, at both ends.
  lemma FragmentBuffers(s: Setup, a: Process, b: Process, m: Node, n: Node)
    requires s.Valid() && a in s.procs && b in s.procs && a.subsystem in s.g.table && b.subsystem in s.g.table
    requires a.kind == BoardReader && Listed(s, a, Destinations, false, b)
    requires IsEntry(s, a, Destinations, m) && m.peer == b && IsEntry(s, b, Sources, n) && n.peer == a
    ensures var bytes := if s.advanced then s.fragmentSizes[a.procLabel] else s.maxFragmentSize;
            m.words == bytes / 8 == n.words
  {
  }

  // The others' hold the largest event: of the sender's subsystem, but each end goes by its own FHiCL
  // document if that sets a size, without advanced memory usage; unless it is an event builder that
  // receives.
  lemma EventBuffers(s: Setup, a: Process, b: Process, inter: bool, m: Node, n: Node)
    requires s.Valid() && a in s.procs && b in s.procs && a.subsystem in s.g.table && b.subsystem in s.g.table
    requires a.kind != BoardReader && Listed(s, a, Destinations, inter, b)
    requires IsEntry(s, a, Destinations, m) && m.peer == b && IsEntry(s, b, Sources, n) && n.peer == a
    ensures s.advanced || a.sizeInFhicl.None? ==> m.words == s.eventSizes[a.subsystem] / 8
    ensures !s.advanced && a.sizeInFhicl.Some? ==> m.words == a.sizeInFhicl.value / 8
    ensures s.advanced || b.sizeInFhicl.None? || b.kind == EventBuilder ==> n.words == s.eventSizes[a.subsystem] / 8
    ensures !s.advanced && b.sizeInFhicl.Some? && b.kind != EventBuilder ==> n.words == b.sizeInFhicl.value / 8
  {
    if b.kind != EventBuilder { assert a.subsystem == b.subsystem; }
  }

  // An event builder that sets 8000 bytes and a data logger that sets nothing: the ends differ.
  lemma EndsMayDiffer() returns (s: Setup, a: Process, b: Process, m: Node, n: Node)
    ensures s.Valid() && !s.advanced && s.procs == [a, b] && a.subsystem in s.g.table && b.subsystem in s.g.table
    ensures Listed(s, a, Destinations, false, b)
    ensures IsTable(s, a, Destinations, false, [m]) && IsTable(s, b, Sources, false, [n]) && m.peer == b && n.peer == a
    ensures m.words == 1000 && n.words == 1280
  {
    a := Process("eb", EventBuilder, 0, "1", 0, Some(8000));
    b := Process("dl", DataLogger, 1, "1", 0, None);
    var g := Subsystems(["1"], map["1" := Subsystem([], None, true)]);
    s := Setup(g, [a, b], Transfers("br", "eb", "dl", "x"), false, map[], 0, map["1" := 10240]);
    m, n := Node(b, "eb", 1000, true), Node(a, "eb", 1280, true);
    assert "1" != "";
    assert s.procs[1] == b && HasLoggers(s.procs, "1");
    OnlyOne(s, a, Destinations, b, m);
    OnlyOne(s, b, Sources, a, n);
  }

  lemma OnlyOne(s: Setup, p: Process, nodeType: NodeType, q: Process, node: Node)
    requires s.Valid() && p in s.procs && p.subsystem in s.g.table && p != q
    requires s.procs == [p, q] || s.procs == [q, p]
    requires Listed(s, p, nodeType, false, q) && !Listed(s, p, nodeType, false, p)
    requires IsEntry(s, p, nodeType, node) && node.peer == q && node.hostMap
    ensures IsTable(s, p, nodeType, false, [node])
  {
    assert [node][..0] == [] && PeersOf([node]) == [q];
    forall x ensures multiset([q])[x] == if Listed(s, p, nodeType, false, x) then multiset(s.procs)[x] else 0 {
      CountsOfTwo(s.procs, p, q, x);
    }
  }

  lemma CountsOfTwo(procs: seq<Process>, p: Process, q: Process, x: Process)
    requires p != q && (procs == [p, q] || procs == [q, p])
    ensures multiset(procs)[x] == (if x == p || x == q then 1 else 0) && multiset([q])[x] == if x == q then 1 else 0
  {
    assert multiset(procs) == multiset{p, q};
  }
}
