/** Ranks and default ports of processes, and the ports of routers. */
module Ports {
  import opened Wrappers
  import opened SubsystemGraph

  // What ports are computed from.
  datatype Site = Site(base: nat, perPartition: nat)

  function Start(site: Site, partition: nat): nat {
    site.base + partition * site.perPartition
  }

  // ----- ranks and ports of processes

  // `given` tells that the port was set by hand.
  datatype Launched = Launched(rank: nat, port: nat, given: bool)

  function DefaultPort(site: Site, partition: nat, rank: nat): nat {
    site.base + 100 + partition * site.perPartition + rank
  }

  // Every rank below the number of processes is taken by exactly one of them.
  ghost predicate RanksExact(procs: seq<Launched>) {
    && (forall i :: 0 <= i < |procs| ==> procs[i].rank < |procs|)
    && (forall i, j :: 0 <= i < j < |procs| ==> procs[i].rank != procs[j].rank)
    && (forall r :: 0 <= r < |procs| ==> HasRank(procs, r))
  }

  ghost predicate HasRank(procs: seq<Launched>, r: nat) {
    exists i :: 0 <= i < |procs| && procs[i].rank == r
  }

  ghost predicate PortsByRank(site: Site, partition: nat, procs: seq<Launched>) {
    forall i :: 0 <= i < |procs| && !procs[i].given ==> procs[i].port == DefaultPort(site, partition, procs[i].rank)
  }

  class ProcessTable {
    const site: Site
    const partition: nat
    var procinfos: seq<Launched>

    constructor (site: Site, partition: nat)
      ensures this.site == site && this.partition == partition && procinfos == []
    {
      this.site, this.partition, procinfos := site, partition, [];
    }

    method Append(rank: nat, port: Option<nat>)
      modifies this`procinfos
      ensures |procinfos| == |old(procinfos)| + 1 && procinfos[..|old(procinfos)|] == old(procinfos)
      ensures var p := procinfos[|old(procinfos)|]; p.rank == rank && (p.given <==> port.Some?)
      ensures PortsByRank(site, partition, old(procinfos)) ==> PortsByRank(site, partition, procinfos)
    {
      var p := Launched(rank, if port.Some? then port.value else DefaultPort(site, partition, rank), port.Some?);
      procinfos := procinfos + [p];
    }

    // get_boot_info_base: the complete blocks of the boot file, each with its port if it sets one.
    method ReadBootFile(blocks: seq<Option<nat>>, readers: nat)
      requires procinfos == []
      modifies this`procinfos
      ensures |procinfos| == |blocks| && PortsByRank(site, partition, procinfos)
      ensures forall i ::
              0 <= i < |blocks| ==> procinfos[i].rank == readers + i && (procinfos[i].given <==> blocks[i].Some?)
    {
      var actual := 0;
      for i := 0 to |blocks|
        invariant |procinfos| == i == actual && PortsByRank(site, partition, procinfos)
        invariant forall j ::
                  0 <= j < i ==> procinfos[j].rank == readers + j && (procinfos[j].given <==> blocks[j].Some?)
      {
        actual := actual + 1;
        ghost var before := procinfos;
        Append(readers + actual - 1, blocks[i]);
        assert forall j :: 0 <= j < i ==> procinfos[j] == before[j];
      }
    }

    // The board readers of the run, by their place in the component list.
    method AddReaders(components: seq<Option<nat>>, ghost blocks: seq<Option<nat>>)
      requires |procinfos| == |blocks| && PortsByRank(site, partition, procinfos)
      requires forall i :: 0 <= i < |blocks| ==> procinfos[i].rank == |components| + i
      modifies this`procinfos
      ensures |procinfos| == |blocks| + |components| && RanksExact(procinfos) && PortsByRank(site, partition, procinfos)
      ensures procinfos[..|blocks|] == old(procinfos)
      ensures forall i :: |blocks| <= i < |procinfos| ==>
        procinfos[i].rank == i - |blocks| && (procinfos[i].given <==> components[i - |blocks|].Some?)
    {
      ghost var boot := procinfos;
      for rank := 0 to |components|
        invariant |procinfos| == |blocks| + rank && PortsByRank(site, partition, procinfos)
        invariant procinfos[..|blocks|] == boot
        invariant forall i :: |blocks| <= i < |procinfos| ==>
          procinfos[i].rank == i - |blocks| && (procinfos[i].given <==> components[i - |blocks|].Some?)
      {
        ghost var before := procinfos;
        Append(rank, components[rank]);
        assert forall j :: 0 <= j < |before| ==> procinfos[j] == before[j];
        assert procinfos[..|blocks|] == before[..|blocks|];
      }
      RanksAreExact(procinfos, |blocks|, |components|);
    }
  }

  lemma RanksAreExact(procs: seq<Launched>, boot: nat, readers: nat)
    requires |procs| == boot + readers
    requires forall i :: 0 <= i < boot ==> procs[i].rank == readers + i
    requires forall i :: boot <= i < |procs| ==> procs[i].rank == i - boot
    ensures RanksExact(procs)
  {
    forall r | 0 <= r < |procs| ensures HasRank(procs, r) {
      var i := if r < readers then boot + r else r - readers;
      assert procs[i].rank == r;
    }
  }

  // ----- the ports of routers

  // A RoutingManager serves its own subsystem, a DFO those that name its subsystem as a source.
  datatype Router = Router(dfo: bool, subsystem: Id, target: string)

  predicate Serves(g: Subsystems, p: Router, ss: Id)
    requires ss in g.table
  {
    if p.dfo then p.subsystem in g.table[ss].sources else p.subsystem == ss
  }

  function Targets(g: Subsystems, routers: seq<Router>, ss: Id): seq<string>
    requires ss in g.table
  {
    if routers == [] then []
    else
      var last := routers[|routers| - 1];
      Targets(g, routers[..|routers| - 1], ss) + if Serves(g, last, ss) then [last.target] else []
  }

  // A router of that target serves the subsystem: a RoutingManager in it, or a DFO in one of its sources.
  ghost predicate HasRouter(g: Subsystems, routers: seq<Router>, ss: Id, t: string)
    requires ss in g.table
  {
    exists i :: 0 <= i < |routers| && ServesAs(g, routers[i], ss, t)
  }

  ghost predicate ServesAs(g: Subsystems, p: Router, ss: Id, t: string)
    requires ss in g.table
  {
    p.target == t && ((!p.dfo && p.subsystem == ss) || (p.dfo && p.subsystem in g.table[ss].sources))
  }

  lemma {:induction false} TargetsExactly(g: Subsystems, routers: seq<Router>, ss: Id, t: string)
    requires ss in g.table
    ensures t in Targets(g, routers, ss) <==> HasRouter(g, routers, ss, t)
  {
    if routers != [] {
      var init, last := routers[..|routers| - 1], routers[|routers| - 1];
      TargetsExactly(g, init, ss, t);
      assert routers == init + [last];
      if HasRouter(g, init, ss, t) {
        var i :| 0 <= i < |init| && ServesAs(g, init[i], ss, t);
        assert ServesAs(g, routers[i], ss, t);
      }
      if ServesAs(g, last, ss, t) { assert ServesAs(g, routers[|init|], ss, t); }
      if HasRouter(g, routers, ss, t) {
        var i :| 0 <= i < |routers| && ServesAs(g, routers[i], ss, t);
        assert i < |init| ==> ServesAs(g, init[i], ss, t);
      }
    }
  }

  // The routing token ports, by subsystem and target.
  type PortMap = map<(Id, string), nat>

  // Each router of the subsystems in `done` has a token port of its own, from `first` on, without gaps.
  ghost predicate HandedOut(ports: PortMap, g: Subsystems, routers: seq<Router>, done: seq<Id>, first: nat,
                            count: nat) {
    && (forall ss, t :: (ss, t) in ports <==> ss in done && ss in g.table && t in Targets(g, routers, ss))
    && Dense(ports, first, count)
  }

  ghost predicate Dense(ports: PortMap, first: nat, count: nat) {
    && (forall k :: k in ports ==> first <= ports[k] < first + count)
    && (forall j, k :: j in ports && k in ports && j != k ==> ports[j] != ports[k])
    && (forall x :: first <= x < first + count ==> Taken(ports, x))
  }

  ghost predicate Taken(ports: PortMap, x: nat) {
    exists k :: k in ports && ports[k] == x
  }

  function FirstToken(site: Site, partition: nat): nat {
    Start(site, partition) + 10
  }

  // None where two routers of a subsystem have the same target.
  method TokenPorts(site: Site, partition: nat, g: Subsystems, routers: seq<Router>)
    returns (r: Option<PortMap>, count: nat)
    requires g.Valid()
    ensures r.Some? <==> forall ss :: ss in g.order ==> NoDuplicates(Targets(g, routers, ss))
    ensures r.Some? ==> HandedOut(r.value, g, routers, g.order, FirstToken(site, partition), count)
    ensures r.Some? ==> forall ss, t :: (ss, t) in r.value <==> ss in g.table && HasRouter(g, routers, ss, t)
    ensures r.Some? ==> forall k :: k in r.value ==>
      var first := site.base + 10 + partition * site.perPartition;
      first <= r.value[k] < first + count
  {
    var ports: PortMap := map[];
    count := 0;
    ghost var first := FirstToken(site, partition);
    for i := 0 to |g.order|
      invariant HandedOut(ports, g, routers, g.order[..i], first, count)
      invariant forall ss :: ss in g.order[..i] ==> NoDuplicates(Targets(g, routers, ss))
    {
      var ss := g.order[i];
      assert ss in g.order && ss !in g.order[..i];
      var targets := Serving(g, routers, ss);
      var duplicates := HasDuplicates(targets);
      if duplicates {
        return None, count;
      }
      ghost var before := ports;
      ports, count := ForSubsystem(site, partition, ss, targets, ports, count);
      assert g.order[..i + 1] == g.order[..i] + [ss];
    }
    assert g.order[..|g.order|] == g.order;
    forall ss, t ensures (ss, t) in ports <==> ss in g.table && HasRouter(g, routers, ss, t) {
      if ss in g.table { TargetsExactly(g, routers, ss, t); }
    }
    r := Some(ports);
  }

  method Serving(g: Subsystems, routers: seq<Router>, ss: Id) returns (targets: seq<string>)
    requires ss in g.table
    ensures targets == Targets(g, routers, ss)
  {
    targets := [];
    for i := 0 to |routers|
      invariant targets == Targets(g, routers[..i], ss)
    {
      assert routers[..i + 1][..i] == routers[..i];
      if Serves(g, routers[i], ss) {
        targets := targets + [routers[i].target];
      }
    }
    assert routers[..|routers|] == routers;
  }

  method ForSubsystem(site: Site, partition: nat, ss: Id, targets: seq<string>, was: PortMap, already: nat)
    returns (ports: PortMap, count: nat)
    requires NoDuplicates(targets) && Dense(was, FirstToken(site, partition), already)
    requires forall t :: (ss, t) !in was
    ensures Dense(ports, FirstToken(site, partition), count)
    ensures Extends(ports, was, ss, targets)
  {
    ports, count := was, already;
    for j := 0 to |targets|
      invariant Dense(ports, FirstToken(site, partition), count) && Extends(ports, was, ss, targets[..j])
    {
      assert (ss, targets[j]) !in ports;
      OneMorePort(ports, FirstToken(site, partition), count, (ss, targets[j]));
      OneMoreKey(ports, was, ss, targets, j, FirstToken(site, partition) + count);
      ports := ports[(ss, targets[j]) := TokenPort(site, partition, count)];
      count := count + 1;
    }
    assert targets[..|targets|] == targets;
  }

  function TokenPort(site: Site, partition: nat, id: nat): (r: nat)
    ensures r == FirstToken(site, partition) + id
  {
    site.base + 10 + site.perPartition * partition + id
  }

  // Ports for some targets of a subsystem have been added.
  ghost predicate Extends(ports: PortMap, was: PortMap, ss: Id, targets: seq<string>) {
    forall s, t :: (s, t) in ports <==> (s, t) in was || (s == ss && t in targets)
  }

  lemma OneMoreKey(ports: PortMap, was: PortMap, ss: Id, targets: seq<string>, j: nat, port: nat)
    requires j < |targets| && Extends(ports, was, ss, targets[..j])
    ensures Extends(ports[(ss, targets[j]) := port], was, ss, targets[..j + 1])
  {
    assert targets[..j + 1] == targets[..j] + [targets[j]];
  }

  lemma OneMorePort(ports: PortMap, first: nat, count: nat, k: (Id, string))
    requires Dense(ports, first, count) && k !in ports
    ensures Dense(ports[k := first + count], first, count + 1)
  {
    var more := ports[k := first + count];
    forall x | first <= x < first + count + 1 ensures Taken(more, x) {
      if x < first + count {
        assert Taken(ports, x);
        var j :| j in ports && ports[j] == x;
        assert more[j] == x;
      } else {
        assert more[k] == x;
      }
    }
  }

  // len(s) > 1 and len(s) != len(set(s))
  method HasDuplicates(s: seq<string>) returns (d: bool)
    ensures d <==> !NoDuplicates(s)
  {
    var seen: set<string> := {};
    for i := 0 to |s|
      invariant forall x :: x in seen <==> x in s[..i]
      invariant NoDuplicates(s[..i])
    {
      if s[i] in seen {
        assert s[i] in s[..i];
        return true;
      }
      seen := seen + {s[i]};
    }
    assert s[..|s|] == s;
    d := false;
  }

  // ----- no port twice

  // The ports of a partition: those of processes that were not set by hand, the token ports, and the
  // table update ports, each as far behind its token port as there are router ids: a DFO takes one for
  // every subsystem it serves.
  datatype Partition = Partition(number: nat, procs: seq<Launched>, tokens: PortMap, routerIds: nat)

  ghost predicate Valid(site: Site, p: Partition) {
    && RanksExact(p.procs) && PortsByRank(site, p.number, p.procs)
    && Dense(p.tokens, FirstToken(site, p.number), p.routerIds)
  }

  function Updates(p: Partition): PortMap {
    map k | k in p.tokens :: p.tokens[k] + p.routerIds
  }

  // No two of them are the same.
  ghost predicate AllDistinct(p: Partition) {
    && (forall i, j :: 0 <= i < j < |p.procs| && !p.procs[i].given && !p.procs[j].given ==>
        p.procs[i].port != p.procs[j].port)
    && (forall j, k :: j in p.tokens && k in p.tokens && j != k ==>
        p.tokens[j] != p.tokens[k] && Updates(p)[j] != Updates(p)[k])
    && (forall j, k :: j in p.tokens && k in p.tokens ==> p.tokens[j] != Updates(p)[k])
    && (forall i, k :: 0 <= i < |p.procs| && !p.procs[i].given && k in p.tokens ==>
          p.procs[i].port != p.tokens[k] && p.procs[i].port != Updates(p)[k])
  }

  // In a partition, exactly if every process with a default port has a rank past the routers' ports.
  lemma DistinctExactly(site: Site, p: Partition)
    requires Valid(site, p)
    ensures AllDistinct(p)
            <==> forall i :: 0 <= i < |p.procs| && !p.procs[i].given ==> 2 * p.routerIds <= p.procs[i].rank + 90
  {
    forall i | 0 <= i < |p.procs| && !p.procs[i].given && p.procs[i].rank + 90 < 2 * p.routerIds
      ensures !AllDistinct(p)
    {
      var x := p.procs[i].rank + 90;
      assert Taken(p.tokens, FirstToken(site, p.number) + if x < p.routerIds then x else x - p.routerIds);
    }
  }

  // So up to 45 router ids are always fine, and 46 are not if all ports are default ones.
  lemma FortyFiveRouters(site: Site, p: Partition)
    requires Valid(site, p)
    ensures p.routerIds <= 45 ==> AllDistinct(p)
    ensures p.procs != [] && (forall i :: 0 <= i < |p.procs| ==> !p.procs[i].given) ==>
            (AllDistinct(p) <==> p.routerIds <= 45)
  {
    DistinctExactly(site, p);
    if p.procs != [] {
      assert HasRank(p.procs, 0);
    }
  }

  // A port that is in use in a partition.
  ghost predicate InUse(p: Partition, port: nat) {
    || (exists i :: 0 <= i < |p.procs| && !p.procs[i].given && p.procs[i].port == port)
    || (exists k :: k in p.tokens && (p.tokens[k] == port || Updates(p)[k] == port))
  }

  // How far the ports of q lie behind those of p.
  function Distance(site: Site, p: Partition, q: Partition): nat
    requires p.number < q.number
  {
    (q.number - p.number) * site.perPartition
  }

  lemma StartsApart(site: Site, p: Partition, q: Partition)
    requires p.number < q.number
    ensures Start(site, q.number) == Start(site, p.number) + Distance(site, p, q)
  {
  }

  ghost predicate Disjoint(p: Partition, q: Partition) {
    forall port: nat :: !(InUse(p, port) && InUse(q, port))
  }

  // Which ports of p's processes and routers, counted from the start of p, keep clear of those of q.
  ghost predicate KeepClear(p: Partition, q: Partition, d: nat) {
    && (q.routerIds == 0 || 2 * p.routerIds <= d)
    && (forall i, j :: DefaultAt(p, i) && DefaultAt(q, j) ==> p.procs[i].rank != d + q.procs[j].rank)
    && (forall i :: DefaultAt(p, i) ==> p.procs[i].rank + 90 < d || d + 2 * q.routerIds <= p.procs[i].rank + 90)
    && (forall j :: DefaultAt(q, j) ==> 2 * p.routerIds <= d + 90 + q.procs[j].rank)
  }

  predicate DefaultAt(p: Partition, i: int) {
    0 <= i < |p.procs| && !p.procs[i].given
  }

  // A port counted from the start of its partition: of a router, or of a process with a default port.
  ghost predicate Offset(p: Partition, x: int) {
    10 <= x < 10 + 2 * p.routerIds || exists i :: DefaultAt(p, i) && x == 100 + p.procs[i].rank
  }

  lemma InUseAt(site: Site, p: Partition, port: nat)
    requires Valid(site, p)
    ensures InUse(p, port) <==> Offset(p, port - Start(site, p.number))
  {
    var x := port - Start(site, p.number);
    if 10 <= x < 10 + 2 * p.routerIds {
      assert Taken(p.tokens, if x < 10 + p.routerIds then port else port - p.routerIds);
    }
    if i :| DefaultAt(p, i) && x == 100 + p.procs[i].rank {
      assert p.procs[i].port == port;
    }
  }

  lemma OffsetsClear(p: Partition, q: Partition, d: nat)
    ensures (forall x :: !(Offset(p, x + d) && Offset(q, x))) <==> KeepClear(p, q, d)
  {
    if KeepClear(p, q, d) {
      forall x ensures !(Offset(p, x + d) && Offset(q, x)) {}
    } else {
      var x := SharedOffset(p, q, d);
    }
  }

  lemma SharedOffset(p: Partition, q: Partition, d: nat) returns (x: int)
    requires !KeepClear(p, q, d)
    ensures Offset(p, x + d) && Offset(q, x)
  {
    if q.routerIds > 0 && d < 2 * p.routerIds {
      x := 10;
    } else if i, j :| DefaultAt(p, i) && DefaultAt(q, j) && p.procs[i].rank == d + q.procs[j].rank {
      x := 100 + q.procs[j].rank;
    } else if i :| DefaultAt(p, i) && d <= p.procs[i].rank + 90 < d + 2 * q.routerIds {
      x := 100 + p.procs[i].rank - d;
    } else {
      var j :| DefaultAt(q, j) && d + 90 + q.procs[j].rank < 2 * p.routerIds;
      x := 100 + q.procs[j].rank;
    }
  }

  // Across two partitions, exactly when no port is in use in both.
  lemma ApartExactly(site: Site, p: Partition, q: Partition)
    requires Valid(site, p) && Valid(site, q) && p.number < q.number
    ensures Disjoint(p, q) <==> KeepClear(p, q, Distance(site, p, q))
  {
    var d, start := Distance(site, p, q), Start(site, q.number);
    StartsApart(site, p, q);
    OffsetsClear(p, q, d);
    forall port: nat
      ensures InUse(p, port) && InUse(q, port) <==> Offset(p, port - start + d) && Offset(q, port - start)
    {
      InUseAt(site, p, port);
      InUseAt(site, q, port);
    }
    if !KeepClear(p, q, d) {
      var x := SharedOffset(p, q, d);
      assert InUse(p, x + start) && InUse(q, x + start);
    }
  }

  // So no port is in use in two partitions if the first has at most 45 router ids and 90 more ports than
  // processes; of the second nothing is asked.
  lemma PartitionsApart(site: Site, p: Partition, q: Partition)
    requires Valid(site, p) && Valid(site, q) && p.number < q.number
    requires p.routerIds <= 45 && 90 + |p.procs| <= site.perPartition
    ensures Disjoint(p, q)
  {
    AtLeastOnce(q.number - p.number, site.perPartition);
    ApartExactly(site, p, q);
  }

  lemma AtLeastOnce(n: nat, per: nat)
    requires n > 0
    ensures per <= n * per
  {
  }

  ghost predicate AllDefault(p: Partition) {
    forall i :: 0 <= i < |p.procs| ==> !p.procs[i].given
  }

  // With default ports only: the routers of q lie behind the routers of p, its processes behind those of
  // p, and its routers behind the processes of p or before them.
  lemma DefaultsApartExactly(site: Site, p: Partition, q: Partition)
    requires Valid(site, p) && Valid(site, q) && p.number < q.number && AllDefault(p) && AllDefault(q)
    ensures var d := Distance(site, p, q);
            Disjoint(p, q) <==>
            && (q.routerIds == 0 || 2 * p.routerIds <= d)
            && (q.procs == [] || |p.procs| <= d)
            && (p.procs == [] || q.routerIds == 0 || 90 + |p.procs| <= d || d + 2 * q.routerIds <= 90)
            && (q.procs == [] || 2 * p.routerIds <= d + 90)
  {
    ApartExactly(site, p, q);
    AllRanksDefault(site, p);
    AllRanksDefault(site, q);
    ClearByRank(p, q, Distance(site, p, q));
  }

  // A default port is due to every rank below the number of processes.
  ghost predicate RankDefault(p: Partition, r: nat) {
    exists i :: DefaultAt(p, i) && p.procs[i].rank == r
  }

  ghost predicate RanksDefault(p: Partition) {
    && (forall i :: DefaultAt(p, i) ==> p.procs[i].rank < |p.procs|)
    && (forall r :: 0 <= r < |p.procs| ==> RankDefault(p, r))
  }

  lemma AllRanksDefault(site: Site, p: Partition)
    requires Valid(site, p) && AllDefault(p)
    ensures RanksDefault(p)
  {
    forall r | 0 <= r < |p.procs| ensures RankDefault(p, r) {
      assert HasRank(p.procs, r);
      var i :| 0 <= i < |p.procs| && p.procs[i].rank == r;
      assert DefaultAt(p, i);
    }
  }

  lemma ClearByRank(p: Partition, q: Partition, d: nat)
    requires RanksDefault(p) && RanksDefault(q)
    ensures KeepClear(p, q, d) <==>
            && (q.routerIds == 0 || 2 * p.routerIds <= d)
            && (q.procs == [] || |p.procs| <= d)
            && (p.procs == [] || q.routerIds == 0 || 90 + |p.procs| <= d || d + 2 * q.routerIds <= 90)
            && (q.procs == [] || 2 * p.routerIds <= d + 90)
  {
    var n := |p.procs|;
    if q.procs != [] {
      assert RankDefault(q, 0);
      if d < n { assert RankDefault(p, d); }
    }
    if p.procs != [] && q.routerIds > 0 && d < 90 + n && 90 < d + 2 * q.routerIds {
      assert RankDefault(p, if d <= 90 then 0 else d - 90);
    }
  }

  // ----- a boot

  // The processes of the boot file and of the component list, and the ports of the routers.
  method Boot(site: Site, number: nat, blocks: seq<Option<nat>>, components: seq<Option<nat>>, g: Subsystems,
              routers: seq<Router>)
    returns (r: Option<Partition>)
    requires g.Valid()
    ensures r.Some? <==> forall ss :: ss in g.order ==> NoDuplicates(Targets(g, routers, ss))
    ensures r.Some? ==> Valid(site, r.value) && r.value.number == number && |r.value.procs| == |blocks| + |components|
    ensures r.Some? ==> HandedOut(r.value.tokens, g, routers, g.order, FirstToken(site, number), r.value.routerIds)
    ensures r.Some? && r.value.routerIds <= 45 ==> AllDistinct(r.value)
    ensures r.Some? ==> forall i :: 0 <= i < |r.value.procs| && !r.value.procs[i].given ==>
      r.value.procs[i].port == site.base + 100 + number * site.perPartition + r.value.procs[i].rank
    ensures r.Some? ==> forall i :: 0 <= i < |blocks| ==> r.value.procs[i].rank == |components| + i
    ensures r.Some? ==> forall ss, t :: (ss, t) in r.value.tokens <==> ss in g.table && HasRouter(g, routers, ss, t)
    ensures r.Some? ==> forall k :: k in r.value.tokens ==>
      var first := site.base + 10 + number * site.perPartition;
      && first <= r.value.tokens[k] < first + r.value.routerIds
      && Updates(r.value)[k] == r.value.tokens[k] + r.value.routerIds
  {
    var table := new ProcessTable(site, number);
    table.ReadBootFile(blocks, |components|);
    ghost var boot := table.procinfos;
    table.AddReaders(components, blocks);
    assert forall i :: 0 <= i < |blocks| ==> table.procinfos[i] == table.procinfos[..|blocks|][i] == boot[i];
    var tokens, count := TokenPorts(site, number, g, routers);
    if tokens == None {
      return None;
    }
    var p := Partition(number, table.procinfos, tokens.value, count);
    FortyFiveRouters(site, p);
    r := Some(p);
  }
}
