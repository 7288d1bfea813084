/** How many bytes the board readers of each subsystem need for an event, and which fragment ids they send. */
module FragmentSpaces {
  import opened Wrappers
  import opened SubsystemGraph
  import opened EventBookkeeping

  // What the FHiCL document of a board reader says: `fragmentIds` is its comma-separated list, in which
  // some items may be no numbers.
  datatype Reader = Reader(subsystem: Id, fragmentId: Option<nat>, fragmentIds: Option<seq<Option<nat>>>,
                           sendsNone: bool, maxFragmentSize: nat)

  datatype Settings = Settings(advanced: bool, strict: bool, maxFragmentSize: nat)

  function Numbers(l: seq<Option<nat>>): seq<nat> {
    if l == [] then []
    else Numbers(l[..|l| - 1]) + match l[|l| - 1] case Some(n) => [n] case None => []
  }

  function ReaderIds(r: Reader): seq<nat> {
    if r.sendsNone then []
    else
      (match r.fragmentId case Some(n) => [n] case None => [])
      + match r.fragmentIds case Some(l) => Numbers(l) case None => []
  }

  function Generated(r: Reader): nat {
    if r.sendsNone then 0
    else match r.fragmentIds case Some(l) => |Numbers(l)| case None => 1
  }

  function FragmentSpace(s: Settings, r: Reader): nat {
    if s.advanced then r.maxFragmentSize else s.maxFragmentSize
  }

  // Those of `tids` that are new, each once, behind those that are there.
  function AddNew(have: seq<nat>, tids: seq<nat>): (r: seq<nat>)
    ensures |r| >= |have|
  {
    if tids == [] then have
    else
      var init, last := AddNew(have, tids[..|tids| - 1]), tids[|tids| - 1];
      if last in init then init else init + [last]
  }

  // ----- what each subsystem comes to

  function IdsOf(s: Settings, readers: seq<Reader>, ss: Id): seq<nat> {
    if readers == [] then []
    else
      var init, last := IdsOf(s, readers[..|readers| - 1], ss), readers[|readers| - 1];
      if last.subsystem != ss then init
      else if s.strict then AddNew(init, ReaderIds(last))
      else init + ReaderIds(last)
  }

  function SpaceOf(s: Settings, readers: seq<Reader>, ss: Id): nat {
    if readers == [] then 0
    else
      var init, last := readers[..|readers| - 1], readers[|readers| - 1];
      SpaceOf(s, init, ss) + if last.subsystem == ss then Room(Fragments(s, init, last), FragmentSpace(s, last)) else 0
  }

  // The bytes for that many fragments.
  function Room(fragments: nat, size: nat): nat {
    if fragments == 0 then 0 else Room(fragments - 1, size) + size
  }

  // How many fragments one more reader adds.
  function Fragments(s: Settings, readers: seq<Reader>, r: Reader): nat {
    if s.strict then
      var have := IdsOf(s, readers, r.subsystem);
      |AddNew(have, ReaderIds(r))| - |have|
    else Generated(r)
  }

  // ----- the loop

  // A subsystem that is none is noticed when something is added to it.
  predicate Counted(g: Subsystems, s: Settings, r: Reader) {
    r.subsystem in g.table || (s.strict && ReaderIds(r) == [])
  }

  lemma CountedExactly(g: Subsystems, s: Settings, r: Reader)
    ensures Counted(g, s, r) <==> r.subsystem in g.table || (s.strict && forall x: nat :: x !in ReaderIds(r))
  {
    if ReaderIds(r) != [] { assert ReaderIds(r)[0] in ReaderIds(r); }
  }

  datatype Gathered = Gathered(space: map<Id, nat>, ids: map<Id, seq<nat>>)

  ghost predicate Holds(g: Subsystems, s: Settings, readers: seq<Reader>, t: Gathered) {
    && t.space.Keys == t.ids.Keys == g.table.Keys
    && forall ss {:trigger HoldsAt(s, readers, t, ss)} :: ss in g.table ==> HoldsAt(s, readers, t, ss)
  }

  ghost predicate HoldsAt(s: Settings, readers: seq<Reader>, t: Gathered, ss: Id) {
    && ss in t.space && t.space[ss] == SpaceOf(s, readers, ss)
    && ss in t.ids && t.ids[ss] == IdsOf(s, readers, ss)
  }

  method Gather(g: Subsystems, s: Settings, readers: seq<Reader>) returns (r: Option<Gathered>)
    ensures r.Some? <==> forall i :: 0 <= i < |readers| ==> Counted(g, s, readers[i])
    ensures r.Some? ==> Holds(g, s, readers, r.value)
  {
    var t := Nothing(g, s);
    Whole(readers);
    for i := 0 to |readers|
      invariant Holds(g, s, readers[..i], t)
      invariant forall j :: 0 <= j < i ==> Counted(g, s, readers[j])
    {
      if !Counted(g, s, readers[i]) {
        return None;
      }
      t := AddReader(g, s, readers[..i], readers[i], t);
      Upto(readers, i);
    }
    Whole(readers);
    r := Some(t);
  }

  lemma Upto<T>(a: seq<T>, i: nat)
    requires i < |a|
    ensures a[..i + 1] == a[..i] + [a[i]]
  {
  }

  lemma Whole<T>(a: seq<T>)
    ensures a[..|a|] == a && a[..0] == []
  {
  }

  function Nothing(g: Subsystems, s: Settings): (t: Gathered)
    ensures Holds(g, s, [], t)
  {
    Gathered(map ss | ss in g.table :: 0, map ss | ss in g.table :: [])
  }

  method AddReader(g: Subsystems, s: Settings, before: seq<Reader>, reader: Reader, was: Gathered) returns (t: Gathered)
    requires Counted(g, s, reader) && Holds(g, s, before, was)
    ensures Holds(g, s, before + [reader], t)
  {
    if reader.subsystem !in g.table {
      NoneToAdd(g, s, before, reader, was);
      t := was;
    } else if s.strict {
      t := AddEach(g, s, before, reader, was);
    } else {
      t := AddAll(g, s, before, reader, was);
    }
  }

  lemma NoneToAdd(g: Subsystems, s: Settings, before: seq<Reader>, reader: Reader, was: Gathered)
    requires reader.subsystem !in g.table && Holds(g, s, before, was)
    ensures Holds(g, s, before + [reader], was)
  {
    assert (before + [reader])[..|before|] == before;
    forall ss | ss in g.table ensures HoldsAt(s, before + [reader], was, ss) { assert HoldsAt(s, before, was, ss); }
  }

  // Each id, and the fragments that are generated.
  method AddAll(g: Subsystems, s: Settings, before: seq<Reader>, reader: Reader, was: Gathered) returns (t: Gathered)
    requires reader.subsystem in g.table && !s.strict && Holds(g, s, before, was)
    ensures Holds(g, s, before + [reader], t)
  {
    var ss := reader.subsystem;
    var space := was.space[ss] + Room(Generated(reader), FragmentSpace(s, reader));
    var ids := was.ids[ss] + ReaderIds(reader);
    OneMoreReader(g, s, before, reader, was, space, ids);
    t := Gathered(was.space[ss := space], was.ids[ss := ids]);
  }

  lemma OneMoreReader(g: Subsystems, s: Settings, before: seq<Reader>, reader: Reader, was: Gathered,
                      space: nat, ids: seq<nat>)
    requires reader.subsystem in g.table && Holds(g, s, before, was)
    requires space == was.space[reader.subsystem] + Room(Fragments(s, before, reader), FragmentSpace(s, reader))
    requires var have := was.ids[reader.subsystem];
             ids == if s.strict then AddNew(have, ReaderIds(reader)) else have + ReaderIds(reader)
    ensures Holds(g, s, before + [reader],
                  Gathered(was.space[reader.subsystem := space], was.ids[reader.subsystem := ids]))
  {
    assert (before + [reader])[..|before|] == before;
    var t := Gathered(was.space[reader.subsystem := space], was.ids[reader.subsystem := ids]);
    forall ss | ss in g.table ensures HoldsAt(s, before + [reader], t, ss) {
      assert HoldsAt(s, before, was, ss);
      assert HoldsAt(s, before, was, reader.subsystem);
    }
  }

  // Strict: one fragment for each id that the subsystem does not have yet.
  method AddEach(g: Subsystems, s: Settings, before: seq<Reader>, reader: Reader, was: Gathered) returns (t: Gathered)
    requires reader.subsystem in g.table && s.strict && Holds(g, s, before, was)
    ensures Holds(g, s, before + [reader], t)
  {
    var ss := reader.subsystem;
    assert HoldsAt(s, before, was, ss);
    var space, ids := AddFresh(was.space[ss], was.ids[ss], ReaderIds(reader), FragmentSpace(s, reader));
    OneMoreReader(g, s, before, reader, was, space, ids);
    t := Gathered(was.space[ss := space], was.ids[ss := ids]);
  }

  method AddFresh(had: nat, have: seq<nat>, tids: seq<nat>, size: nat) returns (space: nat, ids: seq<nat>)
    ensures ids == AddNew(have, tids) && space == had + Room(|ids| - |have|, size)
  {
    space, ids := had, have;
    ghost var added := 0;
    Whole(tids);
    for k := 0 to |tids|
      invariant ids == AddNew(have, tids[..k]) && |ids| == |have| + added
      invariant space == had + Room(added, size)
    {
      AddNewStep(have, tids, k);
      if tids[k] !in ids {
        OneMore(added, size);
        space, ids, added := space + size, ids + [tids[k]], added + 1;
      }
    }
  }

  lemma AddNewStep(have: seq<nat>, tids: seq<nat>, k: nat)
    requires k < |tids|
    ensures var ids := AddNew(have, tids[..k]);
            AddNew(have, tids[..k + 1]) == if tids[k] in ids then ids else ids + [tids[k]]
  {
    assert tids[..k + 1][..k] == tids[..k];
  }

  lemma OneMore(n: nat, size: nat)
    ensures Room(n + 1, size) == Room(n, size) + size
  {
  }

  // ----- what the sums mean

  lemma {:induction false} AddNewHolds(have: seq<nat>, tids: seq<nat>)
    requires NoDuplicates(have)
    ensures NoDuplicates(AddNew(have, tids))
    ensures forall x :: x in AddNew(have, tids) <==> x in have || x in tids
  {
    if tids != [] {
      var init, last := tids[..|tids| - 1], tids[|tids| - 1];
      AddNewHolds(have, init);
      assert tids == init + [last];
    }
  }

  ghost predicate SendsFor(r: Reader, ss: Id, x: nat) {
    r.subsystem == ss && x in ReaderIds(r)
  }

  ghost predicate Sends(readers: seq<Reader>, ss: Id, x: nat) {
    exists i :: 0 <= i < |readers| && SendsFor(readers[i], ss, x)
  }

  lemma {:induction false} SendsSplit(init: seq<Reader>, last: Reader, ss: Id, x: nat)
    ensures Sends(init + [last], ss, x) <==> Sends(init, ss, x) || SendsFor(last, ss, x)
  {
    var readers := init + [last];
    forall i | 0 <= i < |readers| && SendsFor(readers[i], ss, x) ensures Sends(init, ss, x) || SendsFor(last, ss, x) {
      assert readers[i] == if i < |init| then init[i] else last;
    }
    forall i | 0 <= i < |init| && SendsFor(init[i], ss, x) ensures Sends(readers, ss, x) {
      assert readers[i] == init[i];
    }
    assert readers[|init|] == last;
  }

  // In strict mode a subsystem has each id that one of its readers sends, once.
  lemma {:induction false} StrictIds(s: Settings, readers: seq<Reader>, ss: Id)
    requires s.strict
    ensures NoDuplicates(IdsOf(s, readers, ss))
    ensures forall x :: x in IdsOf(s, readers, ss) <==> Sends(readers, ss, x)
  {
    if readers != [] {
      var init, last := readers[..|readers| - 1], readers[|readers| - 1];
      StrictIds(s, init, ss);
      AddNewHolds(IdsOf(s, init, ss), ReaderIds(last));
      assert readers == init + [last];
      forall x: nat ensures x in IdsOf(s, readers, ss) <==> Sends(readers, ss, x) { SendsSplit(init, last, ss, x); }
    }
  }

  // The ids of a reader are the one that is set and the numbers of its list, unless it sends none.
  lemma ReaderIdsExactly(r: Reader, x: nat)
    ensures x in ReaderIds(r) <==>
      !r.sendsNone && (r.fragmentId == Some(x) || (r.fragmentIds.Some? && Some(x) in r.fragmentIds.value))
  {
    if r.fragmentIds.Some? { NumbersExactly(r.fragmentIds.value, x); }
  }

  lemma {:induction false} NumbersExactly(l: seq<Option<nat>>, x: nat)
    ensures x in Numbers(l) <==> Some(x) in l
  {
    if l != [] {
      NumbersExactly(l[..|l| - 1], x);
      assert l == l[..|l| - 1] + [l[|l| - 1]];
    }
  }

  // One more reader adds room for each fragment it generates, in strict mode for each id that is new, as
  // large as its own document says with advanced memory usage, and else as the settings say.
  lemma OneReaderMore(s: Settings, readers: seq<Reader>, r: Reader, ss: Id)
    requires s.strict || Regular(r)
    ensures var was, now := SpaceOf(s, readers, ss), SpaceOf(s, readers + [r], ss);
            && (r.subsystem != ss ==> now == was)
            && (r.subsystem == ss && s.advanced ==>
                now == was + (|IdsOf(s, readers + [r], ss)| - |IdsOf(s, readers, ss)|) * r.maxFragmentSize)
            && (r.subsystem == ss && !s.advanced ==>
                now == was + (|IdsOf(s, readers + [r], ss)| - |IdsOf(s, readers, ss)|) * s.maxFragmentSize)
  {
    assert (readers + [r])[..|readers|] == readers;
    RegularExactly(r);
    RoomIsProduct(Fragments(s, readers, r), FragmentSpace(s, r));
  }

  // Without a list one fragment is counted, with one as many as it has numbers.
  lemma GeneratedExactly(r: Reader)
    ensures r.sendsNone ==> Generated(r) == 0
    ensures !r.sendsNone && r.fragmentIds == None ==> Generated(r) == 1
    ensures !r.sendsNone && r.fragmentIds.Some? && None !in r.fragmentIds.value ==>
      Generated(r) == |r.fragmentIds.value|
  {
    if r.fragmentIds.Some? && None !in r.fragmentIds.value { AllNumbers(r.fragmentIds.value); }
  }

  lemma {:induction false} AllNumbers(l: seq<Option<nat>>)
    requires None !in l
    ensures |Numbers(l)| == |l|
  {
    if l != [] {
      assert l[|l| - 1] in l;
      AllNumbers(l[..|l| - 1]);
    }
  }

  // Exactly one of `fragment_id` and `fragment_ids` is set, or no fragments are sent.
  predicate Regular(r: Reader) {
    r.sendsNone || (r.fragmentId.Some? <==> r.fragmentIds.None?)
  }

  // Otherwise the reader is counted for more or fewer fragments than it has ids.
  lemma RegularExactly(r: Reader)
    ensures Generated(r) == |ReaderIds(r)| <==> Regular(r)
  {
  }

  // Without advanced memory usage there is room for one fragment of each id: in strict mode always, else
  // if the readers are regular.
  lemma RoomForEachId(s: Settings, readers: seq<Reader>, ss: Id)
    requires !s.advanced && (s.strict || forall i :: 0 <= i < |readers| ==> Regular(readers[i]))
    ensures SpaceOf(s, readers, ss) == |IdsOf(s, readers, ss)| * s.maxFragmentSize
  {
    RoomSoFar(s, readers, ss);
    RoomIsProduct(|IdsOf(s, readers, ss)|, s.maxFragmentSize);
  }

  lemma {:induction false} RoomSoFar(s: Settings, readers: seq<Reader>, ss: Id)
    requires !s.advanced && (s.strict || forall i :: 0 <= i < |readers| ==> Regular(readers[i]))
    ensures SpaceOf(s, readers, ss) == Room(|IdsOf(s, readers, ss)|, s.maxFragmentSize)
  {
    if readers != [] {
      var init, last := readers[..|readers| - 1], readers[|readers| - 1];
      RoomSoFar(s, init, ss);
      if last.subsystem == ss {
        RegularExactly(last);
        var n, m := |IdsOf(s, init, ss)|, Fragments(s, init, last);
        assert |IdsOf(s, readers, ss)| == n + m;
        Distributes(n, m, s.maxFragmentSize);
      }
    }
  }

  lemma {:induction false} Distributes(n: nat, m: nat, size: nat)
    ensures Room(n + m, size) == Room(n, size) + Room(m, size)
  {
    if m > 0 { Distributes(n, m - 1, size); }
  }

  // That is the product.
  lemma {:induction false} RoomIsProduct(n: nat, size: nat)
    ensures Room(n, size) == n * size
  {
    if n > 0 { RoomIsProduct(n - 1, size); }
  }

  lemma {:induction false} SpaceAligned(s: Settings, readers: seq<Reader>, ss: Id)
    requires !s.advanced && Aligned(s.maxFragmentSize)
    ensures Aligned(SpaceOf(s, readers, ss))
  {
    if readers != [] {
      var init, last := readers[..|readers| - 1], readers[|readers| - 1];
      SpaceAligned(s, init, ss);
      AlignedProduct(Fragments(s, init, last), s.maxFragmentSize);
      AlignedSum(SpaceOf(s, init, ss), Room(Fragments(s, init, last), s.maxFragmentSize));
    }
  }

  lemma {:induction false} AlignedProduct(n: nat, size: nat)
    requires Aligned(size)
    ensures Aligned(Room(n, size))
  {
    if n > 0 {
      AlignedProduct(n - 1, size);
      AlignedSum(Room(n - 1, size), size);
    }
  }

  // The settings check asks for a fragment size that is a multiple of 8, so every event size is one.
  lemma EventsAligned(g: Subsystems, s: Settings, readers: seq<Reader>, t: Gathered, rank: map<Id, nat>, ss: Id)
    requires Holds(g, s, readers, t) && Ranked(g, rank) && ss in g.table
    requires !s.advanced ==> s.maxFragmentSize % 8 == 0
    ensures Aligned(Size(g, OwnSizes(g, t.space, s.advanced), rank, ss))
  {
    if !s.advanced {
      forall x | x in g.table ensures Aligned(t.space[x]) {
        SpaceAligned(s, readers, x);
        assert HoldsAt(s, readers, t, x);
      }
    }
    EventFits(g, t.space, s.advanced, rank, ss);
  }
}
