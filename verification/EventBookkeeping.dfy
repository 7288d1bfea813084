/** The three memoised recursions of bookkeeping: how many fragments a subsystem's event holds,
    how large the event can get, and which fragment ids it carries. */
module EventBookkeeping {
  import opened Wrappers
  import opened SubsystemGraph
  import opened SubsystemOrder
  import opened CycleDetection

  // An id list mixes the numbers of board readers with the names of upstream subsystems.
  datatype Entry = Reader(id: int) | Upstream(ss: Id)

  const MIN_EVENT_SIZE := 10240

  // ----- what makes the recursions end

  // All sources are known, and rank lower than what they feed.
  ghost predicate Ranked(g: Subsystems, rank: map<Id, nat>) {
    && (forall a :: a in g.table ==> a in rank)
    && (forall a, k | a in g.table && 0 <= k < |g.table[a].sources| ::
          g.table[a].sources[k] in g.table && rank[g.table[a].sources[k]] < rank[a])
  }

  // Such ranks exist exactly on the graphs that pass the cycle check and have every source.
  lemma RankedIffSound(g: Subsystems)
    ensures (exists rank :: Ranked(g, rank)) <==> Acyclic(g) && SourcesKnown(g)
  {
    if Acyclic(g) && SourcesKnown(g) {
      var t := AcyclicHasOrder(g);
      var rank := OrderRanks(g, t);
    }
    if rank :| Ranked(g, rank) {
      forall p | Walk(g, p) && |p| >= 2 ensures p[0] != p[|p| - 1] {
        RankFalls(g, rank, p);
      }
    }
  }

  lemma OrderRanks(g: Subsystems, t: seq<Id>) returns (rank: map<Id, nat>)
    requires TopoOrder(g, t) && Covers(g, t) && SourcesKnown(g)
    ensures Ranked(g, rank)
  {
    rank := map x | x in g.table :: IndexOf(t, x);
    forall a, k | a in g.table && 0 <= k < |g.table[a].sources|
      ensures g.table[a].sources[k] in g.table && rank[g.table[a].sources[k]] < rank[a]
    {
      var p := [a, g.table[a].sources[k]];
      assert Edge(g, p[0], p[1]) && Walk(g, p);
      WalkDescends(g, t, p, IndexOf(t, a), IndexOf(t, p[1]));
    }
  }

  lemma {:induction false} RankFalls(g: Subsystems, rank: map<Id, nat>, p: seq<Id>)
    requires Ranked(g, rank) && Walk(g, p) && |p| >= 2
    ensures rank[p[|p| - 1]] < rank[p[0]]
  {
    assert Edge(g, p[0], p[1]);
    if |p| > 2 {
      var q := p[1..];
      forall n | 0 <= n < |q| - 1 ensures Edge(g, q[n], q[n + 1]) {
        assert Edge(g, p[n + 1], p[n + 2]);
      }
      RankFalls(g, rank, q);
    }
  }

  ghost predicate Over<T>(g: Subsystems, m: map<Id, T>) {
    forall x :: x in g.table ==> x in m
  }

  // ----- the recursions without memoisation; `rank` only bounds them

  ghost function Ids(g: Subsystems, own: map<Id, seq<Entry>>, rank: map<Id, nat>, ss: Id): seq<Entry>
    requires Ranked(g, rank) && Over(g, own) && ss in g.table
    decreases rank[ss], |g.table[ss].sources| + 1
  {
    own[ss] + IdsFrom(g, own, rank, ss, |g.table[ss].sources|)
  }

  // The contribution of the first k sources.
  ghost function IdsFrom(g: Subsystems, own: map<Id, seq<Entry>>, rank: map<Id, nat>, ss: Id, k: nat): seq<Entry>
    requires Ranked(g, rank) && Over(g, own) && ss in g.table && k <= |g.table[ss].sources|
    decreases rank[ss], k
  {
    if k == 0 then []
    else
      IdsFrom(g, own, rank, ss, k - 1) + Part(g, own, rank, g.table[ss].sources[k - 1])
  }

  // What a source passes on: its whole list in fragment mode, else just its name.
  ghost function Part(g: Subsystems, own: map<Id, seq<Entry>>, rank: map<Id, nat>, source: Id): seq<Entry>
    requires Ranked(g, rank) && Over(g, own) && source in g.table
    decreases rank[source], |g.table[source].sources| + 2
  {
    if g.table[source].fragmentMode then Ids(g, own, rank, source) else [Upstream(source)]
  }

  ghost function Count(g: Subsystems, own: map<Id, seq<Entry>>, rank: map<Id, nat>, ss: Id): nat
    requires Ranked(g, rank) && Over(g, own) && ss in g.table
    decreases rank[ss], |g.table[ss].sources| + 1
  {
    |own[ss]| + CountFrom(g, own, rank, ss, |g.table[ss].sources|)
  }

  ghost function CountFrom(g: Subsystems, own: map<Id, seq<Entry>>, rank: map<Id, nat>, ss: Id, k: nat): nat
    requires Ranked(g, rank) && Over(g, own) && ss in g.table && k <= |g.table[ss].sources|
    decreases rank[ss], k
  {
    if k == 0 then 0
    else
      var source := g.table[ss].sources[k - 1];
      CountFrom(g, own, rank, ss, k - 1) + if g.table[source].fragmentMode then Count(g, own, rank, source) else 1
  }

  predicate Aligned(n: int) {
    n % 8 == 0
  }

  lemma AlignedSum(a: int, b: int)
    requires Aligned(a) && Aligned(b)
    ensures Aligned(a + b)
  {
  }

  // The memory factor of 1.1 as an exact fraction, then the next multiple of 8.
  function Padded(space: nat, advanced: bool): (r: nat)
    ensures space <= r
    ensures advanced || Aligned(space) ==> Aligned(r)
  {
    if advanced then NextMultiple(Scaled(space)) else space
  }

  function Scaled(space: nat): (r: nat)
    ensures space <= r
  {
    space * 11 / 10
  }

  function NextMultiple(size: nat): (r: nat)
    ensures size <= r < size + 8 && Aligned(r)
  {
    if size % 8 != 0 then size + (8 - size % 8) else size
  }

  ghost function OwnSizes(g: Subsystems, space: map<Id, nat>, advanced: bool): (m: map<Id, nat>)
    requires Over(g, space)
    ensures Over(g, m)
  {
    map x | x in g.table :: Padded(space[x], advanced)
  }

  // `own` holds the padded sizes of the subsystems' own fragments.
  ghost function Size(g: Subsystems, own: map<Id, nat>, rank: map<Id, nat>, ss: Id): nat
    requires Ranked(g, rank) && Over(g, own) && ss in g.table
    decreases rank[ss], |g.table[ss].sources| + 1
  {
    var size := own[ss] + SizeFrom(g, own, rank, ss, |g.table[ss].sources|);
    if size < MIN_EVENT_SIZE then MIN_EVENT_SIZE else size
  }

  // The sum of the event sizes of the first k sources.
  ghost function SizeFrom(g: Subsystems, own: map<Id, nat>, rank: map<Id, nat>, ss: Id, k: nat): nat
    requires Ranked(g, rank) && Over(g, own) && ss in g.table && k <= |g.table[ss].sources|
    decreases rank[ss], k
  {
    if k == 0 then 0
    else SizeFrom(g, own, rank, ss, k - 1) + Size(g, own, rank, g.table[ss].sources[k - 1])
  }

  // ----- what the recursions mean

  // The fragment count announced to a subsystem is the length of its id list.
  lemma {:induction false} CountIsLength(g: Subsystems, own: map<Id, seq<Entry>>, rank: map<Id, nat>, ss: Id)
    requires Ranked(g, rank) && Over(g, own) && ss in g.table
    ensures Count(g, own, rank, ss) == |Ids(g, own, rank, ss)|
    decreases rank[ss], |g.table[ss].sources| + 1
  {
    CountFromIsLength(g, own, rank, ss, |g.table[ss].sources|);
  }

  lemma {:induction false} CountFromIsLength(g: Subsystems, own: map<Id, seq<Entry>>, rank: map<Id, nat>, ss: Id,
                                             k: nat)
    requires Ranked(g, rank) && Over(g, own) && ss in g.table && k <= |g.table[ss].sources|
    ensures CountFrom(g, own, rank, ss, k) == |IdsFrom(g, own, rank, ss, k)|
    decreases rank[ss], k
  {
    if k > 0 {
      CountFromIsLength(g, own, rank, ss, k - 1);
      CountIsLength(g, own, rank, g.table[ss].sources[k - 1]);
    }
  }

  // An event is at least the minimum, and has room for the subsystem's own fragments plus the full events
  // of all its sources; it is a multiple of 8 bytes, if the spaces are or advanced memory usage pads them.
  lemma EventFits(g: Subsystems, space: map<Id, nat>, advanced: bool, rank: map<Id, nat>, ss: Id)
    requires Ranked(g, rank) && Over(g, space) && ss in g.table
    ensures var size := Size(g, OwnSizes(g, space, advanced), rank, ss);
            && size >= MIN_EVENT_SIZE
            && size >= space[ss] + SizeFrom(g, OwnSizes(g, space, advanced), rank, ss, |g.table[ss].sources|)
            && (advanced || (forall x :: x in g.table ==> Aligned(space[x])) ==> Aligned(size))
  {
    if advanced || forall x :: x in g.table ==> Aligned(space[x]) {
      SizeAligned(g, OwnSizes(g, space, advanced), rank, ss);
    }
  }

  // What a subsystem adds to the events of its sources: without advanced memory usage its fragment space;
  // with it a tenth more, rounded down, in whole words.
  ghost predicate Headroom(space: nat, advanced: bool, own: int) {
    if advanced then own % 8 == 0 && 11 * space <= 10 * own + 9 && 10 * own < 11 * space + 80 else own == space
  }

  // The sizes that bookkeeping delivers: the least is 10240; one above that is the sum of the sizes of the
  // sources and the headroom of the subsystem's own space; and the least is only for those that need no more.
  ghost predicate SizesHold(g: Subsystems, space: map<Id, nat>, advanced: bool, sizes: map<Id, nat>) {
    forall ss {:trigger sizes[ss]} :: ss in g.table && ss in space ==>
      ss in sizes && SizeHolds(space[ss], advanced, sizes[ss], SizeSum(sizes, g.table[ss].sources))
  }

  ghost predicate SizeHolds(space: nat, advanced: bool, size: nat, sources: int) {
    && size >= 10240
    && (size > 10240 ==> Headroom(space, advanced, size - sources))
    && (size == 10240 ==> exists own {:trigger Headroom(space, advanced, own)} ::
          Headroom(space, advanced, own) && own + sources <= 10240)
  }

  lemma SizesAreHeld(g: Subsystems, space: map<Id, nat>, advanced: bool, rank: map<Id, nat>, sizes: map<Id, nat>)
    requires Ranked(g, rank) && Over(g, space) && sizes == PlainSizes(g, OwnSizes(g, space, advanced), rank)
    ensures SizesHold(g, space, advanced, sizes)
  {
    forall ss | ss in g.table ensures SizeHolds(space[ss], advanced, sizes[ss], SizeSum(sizes, g.table[ss].sources)) {
      PlainSizesFollow(g, OwnSizes(g, space, advanced), rank);
      assert SizeFollows(g, OwnSizes(g, space, advanced), sizes, ss);
      FollowingSizeHolds(g, OwnSizes(g, space, advanced), sizes, ss, space[ss], advanced);
    }
  }

  lemma FollowingSizeHolds(g: Subsystems, own: map<Id, nat>, sizes: map<Id, nat>, ss: Id, space: nat, advanced: bool)
    requires SizeFollows(g, own, sizes, ss) && own[ss] == Padded(space, advanced)
    ensures SizeHolds(space, advanced, sizes[ss], SizeSum(sizes, g.table[ss].sources))
  {
    PaddedIsHeadroom(space, advanced);
  }

  lemma PaddedIsHeadroom(space: nat, advanced: bool)
    ensures Headroom(space, advanced, Padded(space, advanced))
  {
    if advanced {
      var scaled := space * 11 / 10;
      assert 10 * scaled <= 11 * space <= 10 * scaled + 9;
    }
  }

  lemma {:induction false} SizeAligned(g: Subsystems, own: map<Id, nat>, rank: map<Id, nat>, ss: Id)
    requires Ranked(g, rank) && Over(g, own) && ss in g.table
    requires forall x :: x in g.table ==> Aligned(own[x])
    ensures Aligned(Size(g, own, rank, ss))
    decreases rank[ss], |g.table[ss].sources| + 1
  {
    var k := |g.table[ss].sources|;
    SourcesAligned(g, own, rank, ss, k);
    AlignedSum(own[ss], SizeFrom(g, own, rank, ss, k));
  }

  lemma {:induction false} SourcesAligned(g: Subsystems, own: map<Id, nat>, rank: map<Id, nat>, ss: Id, k: nat)
    requires Ranked(g, rank) && Over(g, own) && ss in g.table && k <= |g.table[ss].sources|
    requires forall x :: x in g.table ==> Aligned(own[x])
    ensures Aligned(SizeFrom(g, own, rank, ss, k))
    decreases rank[ss], k
  {
    if k > 0 {
      var source := g.table[ss].sources[k - 1];
      SourcesAligned(g, own, rank, ss, k - 1);
      SizeAligned(g, own, rank, source);
      AlignedSum(SizeFrom(g, own, rank, ss, k - 1), Size(g, own, rank, source));
    }
  }

  lemma {:induction false} PaddedGrows(a: nat, b: nat, advanced: bool)
    requires a <= b
    ensures Padded(a, advanced) <= Padded(b, advanced)
  {
    if advanced {
      assert Scaled(a) <= Scaled(b);
      NextMultipleGrows(Scaled(a), Scaled(b));
    }
  }

  lemma NextMultipleGrows(x: nat, y: nat)
    requires x <= y
    ensures NextMultiple(x) <= NextMultiple(y)
  {
    var p, q := NextMultiple(x) / 8, NextMultiple(y) / 8;
    assert NextMultiple(x) == 8 * p && NextMultiple(y) == 8 * q;
  }

  // Larger fragments anywhere never make an event smaller anywhere.
  lemma EventGrows(g: Subsystems, small: map<Id, nat>, large: map<Id, nat>, advanced: bool, rank: map<Id, nat>, ss: Id)
    requires Ranked(g, rank) && Over(g, small) && Over(g, large) && ss in g.table
    requires forall x :: x in g.table ==> small[x] <= large[x]
    ensures Size(g, OwnSizes(g, small, advanced), rank, ss) <= Size(g, OwnSizes(g, large, advanced), rank, ss)
  {
    forall x | x in g.table ensures Padded(small[x], advanced) <= Padded(large[x], advanced) {
      PaddedGrows(small[x], large[x], advanced);
    }
    SizeGrows(g, OwnSizes(g, small, advanced), OwnSizes(g, large, advanced), rank, ss);
  }

  lemma {:induction false} SizeGrows(g: Subsystems, small: map<Id, nat>, large: map<Id, nat>, rank: map<Id, nat>,
                                     ss: Id)
    requires Ranked(g, rank) && Over(g, small) && Over(g, large) && ss in g.table
    requires forall x :: x in g.table ==> small[x] <= large[x]
    ensures Size(g, small, rank, ss) <= Size(g, large, rank, ss)
    decreases rank[ss], |g.table[ss].sources| + 1
  {
    SizeFromGrows(g, small, large, rank, ss, |g.table[ss].sources|);
  }

  lemma {:induction false} SizeFromGrows(g: Subsystems, small: map<Id, nat>, large: map<Id, nat>, rank: map<Id, nat>,
                                         ss: Id, k: nat)
    requires Ranked(g, rank) && Over(g, small) && Over(g, large) && ss in g.table && k <= |g.table[ss].sources|
    requires forall x :: x in g.table ==> small[x] <= large[x]
    ensures SizeFrom(g, small, rank, ss, k) <= SizeFrom(g, large, rank, ss, k)
    decreases rank[ss], k
  {
    if k > 0 {
      SizeFromGrows(g, small, large, rank, ss, k - 1);
      SizeGrows(g, small, large, rank, g.table[ss].sources[k - 1]);
    }
  }

  // Which ranks bound the recursions is immaterial.
  lemma {:induction false} RankIsImmaterial(g: Subsystems, own: map<Id, seq<Entry>>, sizes: map<Id, nat>,
                                            r1: map<Id, nat>, r2: map<Id, nat>, ss: Id)
    requires Ranked(g, r1) && Ranked(g, r2) && Over(g, own) && Over(g, sizes) && ss in g.table
    ensures Ids(g, own, r1, ss) == Ids(g, own, r2, ss)
    ensures Size(g, sizes, r1, ss) == Size(g, sizes, r2, ss)
    decreases r1[ss], |g.table[ss].sources| + 1
  {
    RankIsImmaterialFrom(g, own, sizes, r1, r2, ss, |g.table[ss].sources|);
  }

  lemma {:induction false} RankIsImmaterialFrom(g: Subsystems, own: map<Id, seq<Entry>>, sizes: map<Id, nat>,
                                                r1: map<Id, nat>, r2: map<Id, nat>, ss: Id, k: nat)
    requires Ranked(g, r1) && Ranked(g, r2) && Over(g, own) && Over(g, sizes)
    requires ss in g.table && k <= |g.table[ss].sources|
    ensures IdsFrom(g, own, r1, ss, k) == IdsFrom(g, own, r2, ss, k)
    ensures SizeFrom(g, sizes, r1, ss, k) == SizeFrom(g, sizes, r2, ss, k)
    decreases r1[ss], k
  {
    if k > 0 {
      RankIsImmaterialFrom(g, own, sizes, r1, r2, ss, k - 1);
      RankIsImmaterial(g, own, sizes, r1, r2, g.table[ss].sources[k - 1]);
    }
  }

  // ----- the recursions as tables: every entry follows from the entries of the sources

  ghost function Entry0<T>(m: map<Id, T>, x: Id, default: T): T {
    if x in m then m[x] else default
  }

  ghost function CountSum(g: Subsystems, c: map<Id, nat>, sources: seq<Id>): nat {
    if sources == [] then 0
    else
      var source := sources[|sources| - 1];
      CountSum(g, c, sources[..|sources| - 1])
      + if source in g.table && g.table[source].fragmentMode then Entry0(c, source, 0) else 1
  }

  ghost function SizeSum(z: map<Id, nat>, sources: seq<Id>): nat {
    if sources == [] then 0
    else SizeSum(z, sources[..|sources| - 1]) + Entry0(z, sources[|sources| - 1], 0)
  }

  ghost function IdsSum(g: Subsystems, m: map<Id, seq<Entry>>, sources: seq<Id>): seq<Entry> {
    if sources == [] then []
    else
      var source := sources[|sources| - 1];
      IdsSum(g, m, sources[..|sources| - 1])
      + PassedOn(g, m, source)
  }

  // What a source passes on: its whole list in fragment mode, else just its name.
  ghost function PassedOn(g: Subsystems, m: map<Id, seq<Entry>>, source: Id): seq<Entry> {
    if source in g.table && g.table[source].fragmentMode then Entry0(m, source, []) else [Upstream(source)]
  }

  ghost function AtLeastMinimum(size: nat): nat {
    if size < MIN_EVENT_SIZE then MIN_EVENT_SIZE else size
  }

  ghost predicate CountFollows(g: Subsystems, own: map<Id, nat>, c: map<Id, nat>, x: Id) {
    x in g.table && x in own && x in c && c[x] == own[x] + CountSum(g, c, g.table[x].sources)
  }

  ghost predicate SizeFollows(g: Subsystems, own: map<Id, nat>, z: map<Id, nat>, x: Id) {
    x in g.table && x in own && x in z && z[x] == AtLeastMinimum(own[x] + SizeSum(z, g.table[x].sources))
  }

  ghost predicate IdsFollow(g: Subsystems, own: map<Id, seq<Entry>>, m: map<Id, seq<Entry>>, x: Id) {
    x in g.table && x in own && x in m && m[x] == own[x] + IdsSum(g, m, g.table[x].sources)
  }

  ghost predicate CountsFollow(g: Subsystems, own: map<Id, nat>, c: map<Id, nat>) {
    forall x {:trigger CountFollows(g, own, c, x)} :: x in g.table ==> CountFollows(g, own, c, x)
  }

  ghost predicate SizesFollow(g: Subsystems, own: map<Id, nat>, z: map<Id, nat>) {
    forall x {:trigger SizeFollows(g, own, z, x)} :: x in g.table ==> SizeFollows(g, own, z, x)
  }

  ghost predicate AllIdsFollow(g: Subsystems, own: map<Id, seq<Entry>>, m: map<Id, seq<Entry>>) {
    forall x {:trigger IdsFollow(g, own, m, x)} :: x in g.table ==> IdsFollow(g, own, m, x)
  }

  ghost function Lengths(g: Subsystems, own: map<Id, seq<Entry>>): map<Id, nat>
    requires Over(g, own)
  {
    map x | x in g.table :: |own[x]|
  }

  ghost function PlainCounts(g: Subsystems, own: map<Id, seq<Entry>>, rank: map<Id, nat>): map<Id, nat>
    requires Ranked(g, rank) && Over(g, own)
  {
    map x | x in g.table :: Count(g, own, rank, x)
  }

  ghost function PlainSizes(g: Subsystems, own: map<Id, nat>, rank: map<Id, nat>): map<Id, nat>
    requires Ranked(g, rank) && Over(g, own)
  {
    map x | x in g.table :: Size(g, own, rank, x)
  }

  ghost function PlainIds(g: Subsystems, own: map<Id, seq<Entry>>, rank: map<Id, nat>): map<Id, seq<Entry>>
    requires Ranked(g, rank) && Over(g, own)
  {
    map x | x in g.table :: Ids(g, own, rank, x)
  }

  lemma {:induction false} CountSumUnfolds(g: Subsystems, own: map<Id, seq<Entry>>, rank: map<Id, nat>, ss: Id, k: nat)
    requires Ranked(g, rank) && Over(g, own) && ss in g.table && k <= |g.table[ss].sources|
    ensures CountSum(g, PlainCounts(g, own, rank), g.table[ss].sources[..k]) == CountFrom(g, own, rank, ss, k)
  {
    if k > 0 {
      CountSumUnfolds(g, own, rank, ss, k - 1);
      assert g.table[ss].sources[..k][..k - 1] == g.table[ss].sources[..k - 1];
    }
  }

  lemma {:induction false} SizeSumUnfolds(g: Subsystems, own: map<Id, nat>, rank: map<Id, nat>, ss: Id, k: nat)
    requires Ranked(g, rank) && Over(g, own) && ss in g.table && k <= |g.table[ss].sources|
    ensures SizeSum(PlainSizes(g, own, rank), g.table[ss].sources[..k]) == SizeFrom(g, own, rank, ss, k)
  {
    if k > 0 {
      SizeSumUnfolds(g, own, rank, ss, k - 1);
      assert g.table[ss].sources[..k][..k - 1] == g.table[ss].sources[..k - 1];
    }
  }

  lemma {:induction false} IdsSumUnfolds(g: Subsystems, own: map<Id, seq<Entry>>, rank: map<Id, nat>, ss: Id, k: nat)
    requires Ranked(g, rank) && Over(g, own) && ss in g.table && k <= |g.table[ss].sources|
    ensures IdsSum(g, PlainIds(g, own, rank), g.table[ss].sources[..k]) == IdsFrom(g, own, rank, ss, k)
  {
    if k > 0 {
      IdsSumUnfolds(g, own, rank, ss, k - 1);
      assert g.table[ss].sources[..k][..k - 1] == g.table[ss].sources[..k - 1];
    }
  }

  lemma PlainCountsFollow(g: Subsystems, own: map<Id, seq<Entry>>, rank: map<Id, nat>)
    requires Ranked(g, rank) && Over(g, own)
    ensures CountsFollow(g, Lengths(g, own), PlainCounts(g, own, rank))
  {
    forall x | x in g.table ensures CountFollows(g, Lengths(g, own), PlainCounts(g, own, rank), x) {
      CountSumUnfolds(g, own, rank, x, |g.table[x].sources|);
      assert g.table[x].sources[..|g.table[x].sources|] == g.table[x].sources;
    }
  }

  lemma PlainSizesFollow(g: Subsystems, own: map<Id, nat>, rank: map<Id, nat>)
    requires Ranked(g, rank) && Over(g, own)
    ensures SizesFollow(g, own, PlainSizes(g, own, rank))
  {
    forall x | x in g.table ensures SizeFollows(g, own, PlainSizes(g, own, rank), x) {
      SizeSumUnfolds(g, own, rank, x, |g.table[x].sources|);
      assert g.table[x].sources[..|g.table[x].sources|] == g.table[x].sources;
    }
  }

  lemma PlainIdsFollow(g: Subsystems, own: map<Id, seq<Entry>>, rank: map<Id, nat>)
    requires Ranked(g, rank) && Over(g, own)
    ensures AllIdsFollow(g, own, PlainIds(g, own, rank))
  {
    forall x | x in g.table ensures IdsFollow(g, own, PlainIds(g, own, rank), x) {
      IdsSumUnfolds(g, own, rank, x, |g.table[x].sources|);
      assert g.table[x].sources[..|g.table[x].sources|] == g.table[x].sources;
    }
  }

  // ----- the memoised traversals

  // A Python list: shared by reference, extended in place.
  class IdList {
    var items: seq<Entry>

    constructor (items: seq<Entry>)
      ensures this.items == items
    {
      this.items := items;
    }

    method Extend(more: seq<Entry>)
      modifies this
      ensures items == old(items) + more
    {
      items := items + more;
    }
  }

  // Ranks along the edges between known subsystems: what the cycle check leaves behind.
  ghost predicate EdgeRanked(g: Subsystems, rank: map<Id, nat>) {
    && (forall a :: a in g.table ==> a in rank)
    && (forall a, b :: Edge(g, a, b) ==> rank[b] < rank[a])
  }

  ghost predicate AllKnown(g: Subsystems, ss: Id) {
    ss in g.table && forall k :: 0 <= k < |g.table[ss].sources| ==> g.table[ss].sources[k] in g.table
  }

  lemma KnownAndEdgeRanked(g: Subsystems, rank: map<Id, nat>)
    requires EdgeRanked(g, rank)
    ensures Ranked(g, rank) <==> forall x :: x in g.table ==> AllKnown(g, x)
  {
    if forall x :: x in g.table ==> AllKnown(g, x) {
      forall a, k | a in g.table && 0 <= k < |g.table[a].sources|
        ensures g.table[a].sources[k] in g.table && rank[g.table[a].sources[k]] < rank[a]
      {
        assert AllKnown(g, a);
        assert Edge(g, a, g.table[a].sources[k]);
      }
    }
  }

  // The contents of the subsystems' own lists.
  ghost function Contents(g: Subsystems, own: map<Id, IdList>): (m: map<Id, seq<Entry>>)
    requires Over(g, own)
    reads own.Values
    ensures Over(g, m)
  {
    map x | x in g.table :: own[x].items
  }

  // What every traversal starts from: the cycle check has passed, and `known` says that no source
  // is missing from the table.
  ghost predicate Traversable(g: Subsystems, rank: map<Id, nat>, known: bool) {
    EdgeRanked(g, rank) && (known ==> forall x {:trigger AllKnown(g, x)} :: x in g.table ==> AllKnown(g, x))
  }

  // In the three classes below, errors are the KeyErrors of looking up a source that is no
  // subsystem, and `plain` is what the plain recursion gives when there are none.

  class FragmentCounter {
    const g: Subsystems
    const own: map<Id, nat>  // lengths of the subsystems' own id lists
    ghost const rank: map<Id, nat>
    ghost const known: bool
    ghost const plain: map<Id, nat>
    var cache: map<Id, nat>

    ghost predicate Valid()
      reads this
    {
      && Traversable(g, rank, known) && Over(g, own)
      && (known ==> CountsFollow(g, own, plain))
      && (forall x :: x in cache ==> AllKnown(g, x) && (known ==> x in plain && cache[x] == plain[x]))
    }

    constructor (g: Subsystems, own: map<Id, nat>, ghost rank: map<Id, nat>, ghost known: bool,
                 ghost plain: map<Id, nat>)
      requires Traversable(g, rank, known) && Over(g, own)
      requires known ==> CountsFollow(g, own, plain)
      ensures Valid() && this.g == g && this.known == known && this.plain == plain
    {
      this.g, this.own, this.rank, this.known, this.plain, cache := g, own, rank, known, plain, map[];
    }

    method Calculate(ss: Id) returns (r: Result<nat, Id>)
      requires Valid() && ss in g.table
      modifies this
      ensures Valid()
      ensures if r.Ok? then ss in cache && cache[ss] == r.value else r.error !in g.table && !known
      decreases rank[ss]
    {
      if ss in cache { return Ok(cache[ss]); }
      var count := own[ss];
      var sources := g.table[ss].sources;
      for k := 0 to |sources|
        invariant Valid()
        invariant forall j :: 0 <= j < k ==> sources[j] in g.table
        invariant known ==> count == own[ss] + CountSum(g, plain, sources[..k])
      {
        var source := sources[k];
        assert sources[..k + 1][..k] == sources[..k];
        if source !in g.table { assert !AllKnown(g, ss); return Err(source); }
        assert Edge(g, ss, source);
        if source == ss { assert false; }  // refused by the cycle check
        if g.table[source].fragmentMode {
          var more := Calculate(source);
          if more.Err? { return more; }
          count := count + more.value;
        } else {
          count := count + 1;
        }
      }
      assert sources[..|sources|] == sources;
      assert AllKnown(g, ss) && (known ==> CountFollows(g, own, plain, ss));
      cache := cache[ss := count];
      r := Ok(count);
    }
  }

  class EventSizer {
    const g: Subsystems
    const space: map<Id, nat>
    const advanced: bool
    ghost const own: map<Id, nat>  // the spaces after padding
    ghost const rank: map<Id, nat>
    ghost const known: bool
    ghost const plain: map<Id, nat>
    var cache: map<Id, nat>

    ghost predicate Valid()
      reads this
    {
      && Traversable(g, rank, known)
      && (forall x :: x in g.table ==> x in space && x in own && own[x] == Padded(space[x], advanced))
      && (known ==> SizesFollow(g, own, plain))
      && (forall x :: x in cache ==> AllKnown(g, x) && (known ==> x in plain && cache[x] == plain[x]))
    }

    constructor (g: Subsystems, space: map<Id, nat>, advanced: bool, ghost rank: map<Id, nat>, ghost known: bool,
                 ghost plain: map<Id, nat>)
      requires Traversable(g, rank, known) && Over(g, space)
      requires known ==> SizesFollow(g, OwnSizes(g, space, advanced), plain)
      ensures Valid() && this.g == g && this.known == known && this.plain == plain
    {
      this.g, this.space, this.advanced, cache := g, space, advanced, map[];
      this.rank, this.known, this.plain := rank, known, plain;
      this.own := OwnSizes(g, space, advanced);
    }

    method OwnSize(ss: Id) returns (size: nat)
      requires Valid() && ss in g.table
      ensures ss in own && size == own[ss]
    {
      size := Padded(space[ss], advanced);
    }

    method Calculate(ss: Id) returns (r: Result<nat, Id>)
      requires Valid() && ss in g.table
      modifies this
      ensures Valid()
      ensures if r.Ok? then ss in cache && cache[ss] == r.value else r.error !in g.table && !known
      ensures r.Ok? && known ==> SizeHolds(space[ss], advanced, r.value, SizeSum(plain, g.table[ss].sources))
      decreases rank[ss]
    {
      if known {
        assert SizeFollows(g, own, plain, ss);
        FollowingSizeHolds(g, own, plain, ss, space[ss], advanced);
      }
      if ss in cache { return Ok(cache[ss]); }
      var size := OwnSize(ss);
      var sources := g.table[ss].sources;
      for k := 0 to |sources|
        invariant Valid()
        invariant forall j :: 0 <= j < k ==> sources[j] in g.table
        invariant known ==> size == own[ss] + SizeSum(plain, sources[..k])
      {
        var source := sources[k];
        assert sources[..k + 1][..k] == sources[..k];
        if source !in g.table { assert !AllKnown(g, ss); return Err(source); }
        assert Edge(g, ss, source);
        var more := Calculate(source);
        if more.Err? { return more; }
        size := size + more.value;
      }
      assert sources[..|sources|] == sources;
      assert AllKnown(g, ss) && (known ==> SizeFollows(g, own, plain, ss));
      if size < MIN_EVENT_SIZE { size := MIN_EVENT_SIZE; }
      cache := cache[ss := size];
      r := Ok(size);
    }
  }

  class IdCollector {
    const g: Subsystems
    const own: map<Id, IdList>
    ghost const items: map<Id, seq<Entry>>  // the contents of `own`, which never change
    ghost const rank: map<Id, nat>
    ghost const known: bool
    ghost const plain: map<Id, seq<Entry>>
    var cache: map<Id, IdList>

    ghost predicate Fixed() {
      && Traversable(g, rank, known)
      && (known ==> AllIdsFollow(g, items, plain))
    }

    ghost predicate Valid()
      reads this, cache.Values, own.Values
    {
      Fixed() && OwnKept() && CacheKept()
    }

    ghost predicate OwnKept()
      reads own.Values
    {
      forall x :: x in g.table ==> x in own && x in items && own[x].items == items[x]
    }

    ghost predicate CacheKept()
      reads this, cache.Values
    {
      forall x :: x in cache ==> AllKnown(g, x) && (known ==> x in plain && cache[x].items == plain[x])
    }

    constructor (g: Subsystems, own: map<Id, IdList>, ghost rank: map<Id, nat>, ghost known: bool,
                 ghost plain: map<Id, seq<Entry>>)
      requires Traversable(g, rank, known) && Over(g, own)
      requires known ==> AllIdsFollow(g, Contents(g, own), plain)
      ensures Valid()
      ensures this.g == g && this.known == known && this.plain == plain && cache == map[]
    {
      this.g, this.own, this.rank, this.known, this.plain, cache := g, own, rank, known, plain, map[];
      this.items := Contents(g, own);
    }

    // `list` is neither cached nor one of the subsystems' own lists.
    ghost predicate Apart(list: IdList)
      reads this
    {
      (forall x :: x in cache ==> cache[x] != list) && (forall x :: x in own ==> own[x] != list)
    }

    // Lists cached before stay the same objects, and newly cached ones are new objects.
    twostate predicate CacheGrew()
      reads this
    {
      && (forall x :: x in old(cache) ==> x in cache && cache[x] == old(cache[x]))
      && (forall x :: x in cache && x !in old(cache) ==> fresh(cache[x]))
    }

    // The list returned is the cached object itself.  Lists cached earlier keep their contents:
    // only new lists are extended, and only before they are stored.
    method Calculate(ss: Id) returns (r: Result<IdList, Id>)
      requires Fixed() && OwnKept() && CacheKept() && ss in g.table
      modifies this
      ensures OwnKept() && CacheKept() && CacheGrew()
      ensures if r.Ok? then ss in cache && cache[ss] == r.value else r.error !in g.table && !known
      decreases rank[ss], 2
    {
      if ss in cache { return Ok(cache[ss]); }
      var list := new IdList(own[ss].items);
      var missing := AppendSources(list, ss);
      if missing.Some? { return Err(missing.value); }
      assert known ==> IdsFollow(g, items, plain, ss);
      cache := cache[ss := list];
      r := Ok(list);
    }

    // The loop over the sources: `list` is extended by what each of them passes on.
    method AppendSources(list: IdList, ss: Id) returns (missing: Option<Id>)
      requires Fixed() && OwnKept() && CacheKept() && ss in g.table
      requires Apart(list) && list.items == items[ss]
      modifies this, list
      ensures OwnKept() && CacheKept() && CacheGrew() && Apart(list)
      ensures if missing.None? then AllKnown(g, ss) else missing.value !in g.table && !known
      ensures known ==> list.items == items[ss] + IdsSum(g, plain, g.table[ss].sources)
      decreases rank[ss], 1
    {
      var sources := g.table[ss].sources;
      for k := 0 to |sources|
        invariant OwnKept() && CacheKept() && CacheGrew() && Apart(list)
        invariant forall j :: 0 <= j < k ==> sources[j] in g.table
        invariant known ==> list.items == items[ss] + IdsSum(g, plain, sources[..k])
      {
        ghost var before := list.items;
        missing := AppendSource(list, ss, sources[k]);
        if missing.Some? { return; }
        if known { SumStep(g, plain, sources, k, items[ss], before, list.items); }
      }
      assert sources[..|sources|] == sources;
      missing := None;
    }

    // One turn of that loop.
    method AppendSource(list: IdList, ss: Id, source: Id) returns (missing: Option<Id>)
      requires Fixed() && OwnKept() && CacheKept() && Apart(list)
      requires ss in g.table && source in g.table[ss].sources
      modifies this, list
      ensures OwnKept() && CacheKept() && CacheGrew() && Apart(list)
      ensures if missing.None? then source in g.table else missing.value !in g.table && !known
      ensures known && missing.None? ==> list.items == old(list.items) + PassedOn(g, plain, source)
      decreases rank[ss], 0
    {
      if source !in g.table { assert !AllKnown(g, ss); return Some(source); }
      assert Edge(g, ss, source);
      if g.table[source].fragmentMode {
        var more := Calculate(source);
        if more.Err? { return Some(more.error); }
        list.Extend(more.value.items);
      } else {
        list.Extend([Upstream(source)]);
      }
      missing := None;
    }
  }

  lemma SumStep(g: Subsystems, m: map<Id, seq<Entry>>, sources: seq<Id>, k: nat, own: seq<Entry>, before: seq<Entry>,
                after: seq<Entry>)
    requires k < |sources| && before == own + IdsSum(g, m, sources[..k]) && after == before + PassedOn(g, m, sources[k])
    ensures after == own + IdsSum(g, m, sources[..k + 1])
  {
    assert sources[..k + 1][..k] == sources[..k];
  }

  // ----- the check and the traversals together

  datatype Refusal = Circular(path: seq<Id>) | UnknownSource(id: Id)

  datatype Totals = Totals(counts: map<Id, nat>, sizes: map<Id, nat>, ids: map<Id, IdList>)

  lemma OrderRanksEdges(g: Subsystems, t: seq<Id>) returns (rank: map<Id, nat>)
    requires TopoOrder(g, t) && Covers(g, t)
    ensures EdgeRanked(g, rank)
  {
    rank := map x | x in g.table :: IndexOf(t, x);
    forall a, b | Edge(g, a, b) ensures rank[b] < rank[a] {
      var p := [a, b];
      assert Walk(g, p);
      WalkDescends(g, t, p, IndexOf(t, a), IndexOf(t, b));
    }
  }

  method CheckForCycle(g: Subsystems) returns (cycle: Option<seq<Id>>, ghost rank: map<Id, nat>)
    requires g.Valid()
    ensures cycle.None? <==> Acyclic(g)
    ensures cycle.Some? ==> ClosesOnItself(g, cycle.value)
    ensures cycle.None? ==> EdgeRanked(g, rank)
  {
    rank := map[];
    var finder := new CycleFinder(g);
    ghost var order;
    cycle, order := finder.FindCycle();
    if cycle.None? { rank := OrderRanksEdges(g, order); }
  }

  // The totals are the values of the plain recursions, and each id list is as long as announced.
  ghost predicate Correct(g: Subsystems, own: map<Id, seq<Entry>>, space: map<Id, nat>, advanced: bool,
                          rank: map<Id, nat>, t: Totals)
    requires Over(g, own) && Over(g, space)
    reads t.ids.Values
  {
    && Ranked(g, rank)
    && t.counts == PlainCounts(g, own, rank)
    && t.sizes == PlainSizes(g, OwnSizes(g, space, advanced), rank)
    && t.ids.Keys == g.table.Keys
    && (forall x :: x in t.ids ==> t.ids[x].items == Ids(g, own, rank, x) && |t.ids[x].items| == t.counts[x])
  }

  method NewCounter(g: Subsystems, own: map<Id, IdList>, ghost rank: map<Id, nat>, ghost known: bool)
    returns (counter: FragmentCounter)
    requires EdgeRanked(g, rank) && Over(g, own) && (known <==> Ranked(g, rank))
    ensures fresh(counter) && counter.Valid() && counter.g == g && counter.known == known
    ensures known ==> counter.plain == PlainCounts(g, Contents(g, own), rank)
  {
    KnownAndEdgeRanked(g, rank);
    if Ranked(g, rank) { PlainCountsFollow(g, Contents(g, own), rank); }
    ghost var counts := if Ranked(g, rank) then PlainCounts(g, Contents(g, own), rank) else map[];
    var lengths := map x | x in g.table :: |own[x].items|;
    assert lengths == Lengths(g, Contents(g, own));
    counter := new FragmentCounter(g, lengths, rank, known, counts);
  }

  method NewSizer(g: Subsystems, space: map<Id, nat>, advanced: bool, ghost rank: map<Id, nat>, ghost known: bool)
    returns (sizer: EventSizer)
    requires EdgeRanked(g, rank) && Over(g, space) && (known <==> Ranked(g, rank))
    ensures fresh(sizer) && sizer.Valid() && sizer.g == g && sizer.known == known
    ensures known ==> sizer.plain == PlainSizes(g, OwnSizes(g, space, advanced), rank)
  {
    KnownAndEdgeRanked(g, rank);
    if Ranked(g, rank) { PlainSizesFollow(g, OwnSizes(g, space, advanced), rank); }
    ghost var sizes := if Ranked(g, rank) then PlainSizes(g, OwnSizes(g, space, advanced), rank) else map[];
    sizer := new EventSizer(g, space, advanced, rank, known, sizes);
  }

  method NewCollector(g: Subsystems, own: map<Id, IdList>, ghost rank: map<Id, nat>, ghost known: bool)
    returns (collector: IdCollector)
    requires EdgeRanked(g, rank) && Over(g, own) && (known <==> Ranked(g, rank))
    ensures fresh(collector) && collector.Valid() && collector.g == g && collector.known == known
    ensures known ==> collector.plain == PlainIds(g, Contents(g, own), rank)
  {
    KnownAndEdgeRanked(g, rank);
    if Ranked(g, rank) { PlainIdsFollow(g, Contents(g, own), rank); }
    ghost var ids := if Ranked(g, rank) then PlainIds(g, Contents(g, own), rank) else map[];
    collector := new IdCollector(g, own, rank, known, ids);
  }

  // The totals gathered for the subsystems seen so far.
  ghost predicate Gathered(seen: seq<Id>, plain: map<Id, nat>, m: map<Id, nat>) {
    (forall x :: x in m <==> x in seen) && (forall x :: x in m ==> x in plain && m[x] == plain[x])
  }

  ghost predicate GatheredLists(seen: seq<Id>, plain: map<Id, seq<Entry>>, m: map<Id, IdList>)
    reads m.Values
  {
    (forall x :: x in m <==> x in seen) && (forall x :: x in m ==> x in plain && m[x].items == plain[x])
  }

  lemma GatherOne(order: seq<Id>, k: nat, plain: map<Id, nat>, m: map<Id, nat>, n: nat)
    requires k < |order| && Gathered(order[..k], plain, m) && order[k] in plain && plain[order[k]] == n
    ensures Gathered(order[..k + 1], plain, m[order[k] := n])
  {
    assert order[..k + 1] == order[..k] + [order[k]];
  }

  lemma GatherList(order: seq<Id>, k: nat, plain: map<Id, seq<Entry>>, m: map<Id, IdList>, list: IdList)
    requires k < |order| && GatheredLists(order[..k], plain, m) && order[k] in plain && plain[order[k]] == list.items
    ensures GatheredLists(order[..k + 1], plain, m[order[k] := list])
  {
    assert order[..k + 1] == order[..k] + [order[k]];
  }

  // The three traversals of one bookkeeping run.
  class Traversals {
    const g: Subsystems
    const counter: FragmentCounter
    const sizer: EventSizer
    const collector: IdCollector
    ghost const known: bool

    ghost predicate SameRun() {
      && g.Valid()
      && counter.g == sizer.g == collector.g == g
      && counter.known == sizer.known == collector.known == known
    }

    ghost predicate Valid()
      reads counter, sizer, collector, collector.cache.Values, collector.own.Values
    {
      SameRun() && counter.Valid() && sizer.Valid() && collector.Valid()
    }

    constructor (counter: FragmentCounter, sizer: EventSizer, collector: IdCollector)
      requires counter.Valid() && sizer.Valid() && collector.Valid() && counter.g.Valid()
      requires counter.g == sizer.g == collector.g && counter.known == sizer.known == collector.known
      ensures Valid() && this.counter == counter && this.sizer == sizer && this.collector == collector
      ensures known == counter.known && g == counter.g
    {
      this.g, this.known := counter.g, counter.known;
      this.counter, this.sizer, this.collector := counter, sizer, collector;
    }

    // One subsystem's results are what the plain recursions give.
    ghost predicate Matches(ss: Id, one: (nat, nat, IdList))
      reads one.2
    {
      && ss in counter.plain && counter.plain[ss] == one.0
      && ss in sizer.plain && sizer.plain[ss] == one.1
      && ss in collector.plain && collector.plain[ss] == one.2.items
    }

    method CalculateOne(ss: Id) returns (r: Result<(nat, nat, IdList), Id>)
      requires Valid() && ss in g.table
      modifies counter, sizer, collector
      ensures Valid()
      ensures if r.Ok? then AllKnown(g, ss) else r.error !in g.table && !known
      ensures r.Ok? && known ==> Matches(ss, r.value)
    {
      var count := counter.Calculate(ss);
      if count.Err? { return Err(count.error); }
      var size := sizer.Calculate(ss);
      if size.Err? { return Err(size.error); }
      var list := collector.Calculate(ss);
      if list.Err? { return Err(list.error); }
      r := Ok((count.value, size.value, list.value));
    }

    ghost predicate AllGathered(seen: seq<Id>, t: Totals)
      reads t.ids.Values
    {
      && Gathered(seen, counter.plain, t.counts)
      && Gathered(seen, sizer.plain, t.sizes)
      && GatheredLists(seen, collector.plain, t.ids)
    }

    method CalculateAll() returns (r: Result<Totals, Id>)
      requires Valid()
      modifies counter, sizer, collector
      ensures r.Ok? ==> forall x :: x in g.table ==> AllKnown(g, x)
      ensures r.Ok? && known ==> AllGathered(g.order, r.value)
      ensures r.Err? ==> r.error !in g.table && !known
    {
      var t := Totals(map[], map[], map[]);
      for k := 0 to |g.order|
        invariant Valid()
        invariant forall j :: 0 <= j < k ==> AllKnown(g, g.order[j])
        invariant known ==> AllGathered(g.order[..k], t)
      {
        var next := AddOne(k, t);
        if next.Err? { return next; }
        t := next.value;
      }
      assert g.order[..|g.order|] == g.order;
      r := Ok(t);
    }

    // The results of one more subsystem.
    method AddOne(k: nat, t: Totals) returns (r: Result<Totals, Id>)
      requires Valid() && k < |g.order| && (known ==> AllGathered(g.order[..k], t))
      modifies counter, sizer, collector
      ensures Valid()
      ensures if r.Ok? then AllKnown(g, g.order[k]) else r.error !in g.table && !known
      ensures r.Ok? && known ==> AllGathered(g.order[..k + 1], r.value)
    {
      var one := CalculateOne(g.order[k]);
      if one.Err? { return Err(one.error); }
      if known { GatherAll(k, t, one.value); }
      r := Ok(Add(t, g.order[k], one.value));
    }

    lemma GatherAll(k: nat, t: Totals, one: (nat, nat, IdList))
      requires k < |g.order| && AllGathered(g.order[..k], t) && Matches(g.order[k], one)
      ensures AllGathered(g.order[..k + 1], Add(t, g.order[k], one))
    {
      GatherOne(g.order, k, counter.plain, t.counts, one.0);
      GatherOne(g.order, k, sizer.plain, t.sizes, one.1);
      GatherList(g.order, k, collector.plain, t.ids, one.2);
    }
  }

  function Add(t: Totals, ss: Id, one: (nat, nat, IdList)): Totals {
    Totals(t.counts[ss := one.0], t.sizes[ss := one.1], t.ids[ss := one.2])
  }

  // The three traversals of every subsystem, in table order.
  method Traverse(g: Subsystems, own: map<Id, IdList>, space: map<Id, nat>, advanced: bool, ghost rank: map<Id, nat>)
    returns (r: Result<Totals, Id>)
    requires g.Valid() && EdgeRanked(g, rank) && Over(g, own) && Over(g, space)
    ensures r.Ok? <==> SourcesKnown(g)
    ensures r.Ok? ==> Correct(g, Contents(g, own), space, advanced, rank, r.value)
    ensures r.Err? ==> r.error !in g.table
  {
    ghost var known, items := Ranked(g, rank), Contents(g, own);
    r := TraverseAll(g, own, space, advanced, rank, known);
    KnownAndEdgeRanked(g, rank);
    if r.Ok? { CollectedIsCorrect(g, items, space, advanced, rank, r.value); }
  }

  method TraverseAll(g: Subsystems, own: map<Id, IdList>, space: map<Id, nat>, advanced: bool,
                     ghost rank: map<Id, nat>, ghost known: bool)
    returns (r: Result<Totals, Id>)
    requires g.Valid() && EdgeRanked(g, rank) && Over(g, own) && Over(g, space) && (known <==> Ranked(g, rank))
    ensures r.Ok? ==> forall x :: x in g.table ==> AllKnown(g, x)
    ensures r.Ok? && known ==> Gathered(g.order, PlainCounts(g, Contents(g, own), rank), r.value.counts)
    ensures r.Ok? && known ==> Gathered(g.order, PlainSizes(g, OwnSizes(g, space, advanced), rank), r.value.sizes)
    ensures r.Ok? && known ==> GatheredLists(g.order, PlainIds(g, Contents(g, own), rank), r.value.ids)
    ensures r.Err? ==> r.error !in g.table && !known
  {
    ghost var items := Contents(g, own);
    var traversals := NewTraversals(g, own, space, advanced, rank, known);
    r := traversals.CalculateAll();
    assert Contents(g, own) == items;
  }

  method NewTraversals(g: Subsystems, own: map<Id, IdList>, space: map<Id, nat>, advanced: bool,
                       ghost rank: map<Id, nat>, ghost known: bool)
    returns (t: Traversals)
    requires g.Valid() && EdgeRanked(g, rank) && Over(g, own) && Over(g, space) && (known <==> Ranked(g, rank))
    ensures fresh(t) && fresh(t.counter) && fresh(t.sizer) && fresh(t.collector)
    ensures t.Valid() && t.g == g && t.known == known
    ensures known ==> t.counter.plain == PlainCounts(g, Contents(g, own), rank)
    ensures known ==> t.sizer.plain == PlainSizes(g, OwnSizes(g, space, advanced), rank)
    ensures known ==> t.collector.plain == PlainIds(g, Contents(g, own), rank)
  {
    var counter := NewCounter(g, own, rank, known);
    var sizer := NewSizer(g, space, advanced, rank, known);
    assert counter.Valid();
    var collector := NewCollector(g, own, rank, known);
    assert counter.Valid() && sizer.Valid();
    t := new Traversals(counter, sizer, collector);
  }

  lemma CollectedIsCorrect(g: Subsystems, own: map<Id, seq<Entry>>, space: map<Id, nat>, advanced: bool,
                           rank: map<Id, nat>, t: Totals)
    requires g.Valid() && Ranked(g, rank) && Over(g, own) && Over(g, space)
    requires Gathered(g.order, PlainCounts(g, own, rank), t.counts)
    requires Gathered(g.order, PlainSizes(g, OwnSizes(g, space, advanced), rank), t.sizes)
    requires GatheredLists(g.order, PlainIds(g, own, rank), t.ids)
    ensures Correct(g, own, space, advanced, rank, t)
  {
    SameMap(g, t.counts, PlainCounts(g, own, rank));
    SameMap(g, t.sizes, PlainSizes(g, OwnSizes(g, space, advanced), rank));
    IdListsCorrect(g, own, rank, t);
  }

  lemma SameMap(g: Subsystems, a: map<Id, nat>, b: map<Id, nat>)
    requires g.Valid() && b.Keys == g.table.Keys
    requires (forall x :: x in a <==> x in g.order) && (forall x :: x in a ==> x in b && a[x] == b[x])
    ensures a == b
  {
  }

  lemma IdListsCorrect(g: Subsystems, own: map<Id, seq<Entry>>, rank: map<Id, nat>, t: Totals)
    requires g.Valid() && Ranked(g, rank) && Over(g, own)
    requires t.counts == PlainCounts(g, own, rank)
    requires forall x :: x in t.ids <==> x in g.order
    requires forall x :: x in t.ids ==> t.ids[x].items == PlainIds(g, own, rank)[x]
    ensures t.ids.Keys == g.table.Keys
    ensures forall x :: x in t.ids ==> t.ids[x].items == Ids(g, own, rank, x) && |t.ids[x].items| == t.counts[x]
  {
    forall x | x in t.ids ensures |t.ids[x].items| == t.counts[x] { CountIsLength(g, own, rank, x); }
  }

  // What bookkeeping computes from the subsystems' own id lists and fragment spaces.  It refuses
  // a circular configuration with a path that shows the cycle, fails on a source that is no
  // subsystem, and otherwise delivers the values of the plain recursions.
  method Bookkeep(g: Subsystems, own: map<Id, IdList>, space: map<Id, nat>, advanced: bool)
    returns (r: Result<Totals, Refusal>, ghost rank: map<Id, nat>)
    requires g.Valid() && Over(g, own) && Over(g, space)
    ensures r.Ok? <==> Acyclic(g) && SourcesKnown(g)
    ensures r.Err? && r.error.Circular? <==> !Acyclic(g)
    ensures r.Err? && r.error.Circular? ==> ClosesOnItself(g, r.error.path)
    ensures r.Err? && r.error.UnknownSource? ==> r.error.id !in g.table
    ensures r.Ok? ==> Correct(g, Contents(g, own), space, advanced, rank, r.value)
    ensures r.Ok? ==> SizesHold(g, space, advanced, r.value.sizes)
  {
    var cycle;
    cycle, rank := CheckForCycle(g);
    if cycle.Some? {
      return Err(Circular(cycle.value)), rank;
    }
    var totals := Traverse(g, own, space, advanced, rank);
    if totals.Ok? { SizesAreHeld(g, space, advanced, rank, totals.value.sizes); }
    r := if totals.Ok? then Ok(totals.value) else Err(UnknownSource(totals.error));
  }
}
