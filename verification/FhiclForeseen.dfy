/** What the rewriting loop makes of a document, told by the document alone: which tables it visits, which of
    them it leaves alone, and which nodes it lists in the others. */
module FhiclForeseen {
  import opened Wrappers
  import opened Strings
  import opened FhiclSearch
  import opened FhiclBraces
  import opened FhiclRewrite
  import opened FhiclEnclosing

  // The name is no part of the words the loop asks for.
  ghost predicate Foreign(name: string) {
    && Apart(name, "message") && Apart(name, "routingNetOutput")
    && Apart(name, "binaryNetOutput") && Apart(name, "subsystemOutput")
  }

  ghost predicate Orderly(s: string, name: string, nodes: Nodes) {
    && Word(name) && Foreign(name) && Quiet(name, nodes)
    && Balanced(nodes.inter) && Balanced(nodes.intra) && Balanced(s) && Tidy(s, name)
  }

  // The two names that are rewritten are like that.
  lemma NamesAreForeign(name: string)
    requires name == "sources" || name == "destinations"
    ensures Word(name) && Foreign(name)
  {
    StartsLike(name, "message");
    StartsLike(name, "routingNetOutput");
    StartsLike(name, "binaryNetOutput");
    StartsLike(name, "subsystemOutput");
  }

  lemma StartsLike(name: string, word: string)
    requires name == "sources" || name == "destinations"
    requires forall i :: 0 <= i < |word| ==> word[i] != 'd'
    requires forall i :: 0 <= i < |word| - 1 ==> word[i] != 's' || word[i + 1] != 'o'
    ensures Apart(name, word)
  {
    forall i: nat ensures !Occurs(word, name, i) {
      CharOf(word, name, i, 0);
      CharOf(word, name, i, 1);
    }
  }

  // ----- the fate of a table

  ghost predicate InSender(s: string, x: nat) {
    DirectlyIn(s, x, "routingNetOutput") || DirectlyIn(s, x, "binaryNetOutput") || DirectlyIn(s, x, "subsystemOutput")
  }

  // What a table at x should come to.
  ghost function DueFate(s: string, x: nat): Fate {
    FateBy(DirectlyIn(s, x, "message"), InSender(s, x))
  }

  ghost predicate JudgedInSender(s: string, name: string, from: nat) {
    || JudgedIn(s, name, "routingNetOutput", from)
    || JudgedIn(s, name, "binaryNetOutput", from)
    || JudgedIn(s, name, "subsystemOutput", from)
  }

  // What the next table comes to when the search for it starts at `from`.
  ghost function JudgedFate(s: string, name: string, from: nat): Fate {
    FateBy(JudgedIn(s, name, "message", from), JudgedInSender(s, name, from))
  }

  predicate Asked(w: string) {
    w == "message" || Sender(w)
  }

  ghost predicate JudgedRight(s: string, name: string, from: nat, enclosing: string, w: string) {
    enclosing == w <==> JudgedIn(s, name, w, from)
  }

  lemma AskedWords(name: string, w: string)
    requires Foreign(name) && Asked(w)
    ensures Word(w) && Apart(name, w)
  {
  }

  lemma FateIsJudged(s: string, name: string, nodes: Nodes, c: Scan, v: Visit)
    requires Orderly(s, name, nodes) && Settled(s, name, c) && Next(s, name, c, v)
    ensures FateOf(v) == JudgedFate(s, name, From(c))
  {
    forall w | Asked(w) ensures JudgedRight(s, name, From(c), v.enclosing, w) {
      AskedWords(name, w);
      EnclosingAsJudged(s, name, w, c, v);
    }
    FateByNames(s, name, From(c), v);
  }

  lemma FateByNames(s: string, name: string, from: nat, v: Visit)
    requires forall w :: Asked(w) ==> JudgedRight(s, name, from, v.enclosing, w)
    ensures FateOf(v) == JudgedFate(s, name, from)
  {
    assert JudgedRight(s, name, from, v.enclosing, "message");
    assert JudgedRight(s, name, from, v.enclosing, "routingNetOutput");
    assert JudgedRight(s, name, from, v.enclosing, "binaryNetOutput");
    assert JudgedRight(s, name, from, v.enclosing, "subsystemOutput");
  }

  // ----- the run, foreseen

  datatype Seen = Seen(start: nat, end: nat, fate: Fate)

  // Where the search goes on after the table from a to e.
  ghost function Resumed(s: string, name: string, nodes: Nodes, from: nat, a: nat, e: nat): nat {
    e + RunsPast(name, nodes, JudgedFate(s, name, from), a, e)
  }

  ghost function Foreseen(s: string, name: string, nodes: Nodes, from: nat): seq<Seen>
    decreases |s| - from
  {
    match TableRange(s, name, from)
    case Between(a, e) =>
      [Seen(a, e, JudgedFate(s, name, from))] + Foreseen(s, name, nodes, Resumed(s, name, nodes, from, a, e))
    case _ => []
  }

  function SeenIn(log: seq<Visit>): (r: seq<Seen>)
    ensures |r| == |log|
    ensures forall i :: 0 <= i < |log| ==> r[i] == Seen(log[i].start, log[i].end, FateOf(log[i]))
  {
    if log == [] then []
    else SeenIn(Init(log)) + [Seen(Last(log).start, Last(log).end, FateOf(Last(log)))]
  }

  ghost predicate FatesJudged(s: string, name: string, nodes: Nodes, log: seq<Visit>) {
    log == [] ||
    match Scanned(s, name, nodes, Init(log))
    case Some(b) => FatesJudged(s, name, nodes, Init(log)) && FateOf(Last(log)) == JudgedFate(s, name, From(b))
    case None => false
  }

  lemma {:induction false} FatesAreJudged(s: string, name: string, nodes: Nodes, log: seq<Visit>, c: Scan)
    requires Orderly(s, name, nodes) && Scanned(s, name, nodes, log) == Some(c)
    ensures FatesJudged(s, name, nodes, log)
    decreases |log|
  {
    if log != [] {
      var b := BeforeLast(s, name, nodes, log, c);
      FatesAreJudged(s, name, nodes, Init(log), b);
      ScannedIsSettled(s, name, nodes, Init(log), b);
      FateIsJudged(s, name, nodes, b, Last(log));
    }
  }

  // The visits so far are those foreseen, and the rest is foreseen from where the search begins.
  lemma {:induction false} VisitsForeseen(s: string, name: string, nodes: Nodes, log: seq<Visit>, c: Scan)
    requires FatesJudged(s, name, nodes, log) && Scanned(s, name, nodes, log) == Some(c)
    ensures Foreseen(s, name, nodes, 0) == SeenIn(log) + Foreseen(s, name, nodes, From(c))
    decreases |log|
  {
    if log != [] {
      var b := BeforeLast(s, name, nodes, log, c);
      VisitsForeseen(s, name, nodes, Init(log), b);
      AheadIsOverrun(s, name, nodes, b, Last(log));
      ForeseenFrom(s, name, nodes, From(b), Last(log), From(c));
      Regrouped(Foreseen(s, name, nodes, 0), log, Foreseen(s, name, nodes, From(b)), Foreseen(s, name, nodes, From(c)));
    } else {
      NothingYet(s, name, nodes, From(c));
    }
  }

  lemma Regrouped(all: seq<Seen>, log: seq<Visit>, mid: seq<Seen>, rest: seq<Seen>)
    requires log != [] && all == SeenIn(Init(log)) + mid
    requires var v := Last(log); mid == [Seen(v.start, v.end, FateOf(v))] + rest
    ensures all == SeenIn(log) + rest
  {
  }

  lemma NothingYet(s: string, name: string, nodes: Nodes, from: nat)
    requires from == 0
    ensures Foreseen(s, name, nodes, 0) == SeenIn([]) + Foreseen(s, name, nodes, from)
  {
    assert forall x: seq<Seen> :: SeenIn([]) + x == x;
  }

  lemma ForeseenFrom(s: string, name: string, nodes: Nodes, from: nat, v: Visit, next: nat)
    requires TableRange(s, name, from) == Between(v.start, v.end)
    requires FateOf(v) == JudgedFate(s, name, from) && next == v.end + Overrun(name, nodes, v)
    ensures Foreseen(s, name, nodes, from) == [Seen(v.start, v.end, FateOf(v))] + Foreseen(s, name, nodes, next)
  {
    assert Resumed(s, name, nodes, from, v.start, v.end) == next;
  }

  // When the loop has ended, its visits are exactly those foreseen.
  lemma RunAsForeseen(s: string, name: string, nodes: Nodes, log: seq<Visit>, c: Scan)
    requires Orderly(s, name, nodes) && Scanned(s, name, nodes, log) == Some(c) && Stops(s, name, c, None)
    ensures SeenIn(log) == Foreseen(s, name, nodes, 0)
  {
    FatesAreJudged(s, name, nodes, log, c);
    VisitsForeseen(s, name, nodes, log, c);
    assert Foreseen(s, name, nodes, From(c)) == [];
  }

  // ----- the text that comes out

  function EndOf(seen: seq<Seen>): nat {
    if seen == [] then 0 else seen[|seen| - 1].end
  }

  predicate InPlace(s: string, seen: seq<Seen>) {
    seen == [] ||
    var init, last := seen[..|seen| - 1], seen[|seen| - 1];
    InPlace(s, init) && EndOf(init) <= last.start <= last.end <= |s|
  }

  function ShownAs(s: string, name: string, nodes: Nodes, x: Seen): string
    requires x.start <= x.end <= |s|
  {
    match x.fate
    case Keep => s[x.start..x.end]
    case Inter => Filled(name, nodes.inter)
    case Intra => Filled(name, nodes.intra)
  }

  function Done(s: string, name: string, nodes: Nodes, seen: seq<Seen>): string
    requires InPlace(s, seen)
  {
    if seen == [] then ""
    else
      var init, last := seen[..|seen| - 1], seen[|seen| - 1];
      Done(s, name, nodes, init) + s[EndOf(init)..last.start] + ShownAs(s, name, nodes, last)
  }

  // The document with each of these tables put in the shape of its fate.
  function Rewritten(s: string, name: string, nodes: Nodes, seen: seq<Seen>): string
    requires InPlace(s, seen) && EndOf(seen) <= |s|
  {
    Done(s, name, nodes, seen) + s[EndOf(seen)..]
  }

  lemma {:induction false} TextIsRewritten(s: string, name: string, nodes: Nodes, log: seq<Visit>, c: Scan)
    requires Scanned(s, name, nodes, log) == Some(c)
    ensures InPlace(s, SeenIn(log)) && EndOf(SeenIn(log)) == c.p <= |s|
    ensures Current(s, c) == Rewritten(s, name, nodes, SeenIn(log)) && c.done == Done(s, name, nodes, SeenIn(log))
    decreases |log|
  {
    if log != [] {
      var b := BeforeLast(s, name, nodes, log, c);
      TextIsRewritten(s, name, nodes, Init(log), b);
      AfterRewritten(s, name, nodes, SeenIn(Init(log)), b, Last(log), c);
      assert SeenIn(log) == SeenIn(Init(log)) + [AsSeen(Last(log))];
    }
  }

  function AsSeen(v: Visit): Seen {
    Seen(v.start, v.end, FateOf(v))
  }

  lemma AfterRewritten(s: string, name: string, nodes: Nodes, seen: seq<Seen>, b: Scan, v: Visit, c: Scan)
    requires Fits(s, b, v) && InPlace(s, seen) && EndOf(seen) == b.p && b.done == Done(s, name, nodes, seen)
    requires c == After(s, name, nodes, b, v)
    ensures var more := seen + [AsSeen(v)];
            && InPlace(s, more) && EndOf(more) == c.p && c.done == Done(s, name, nodes, more)
            && Current(s, c) == Rewritten(s, name, nodes, more)
  {
    OneMoreDone(s, name, nodes, seen, AsSeen(v));
    assert Shown(s, name, nodes, v) == ShownAs(s, name, nodes, AsSeen(v));
  }

  lemma OneMoreDone(s: string, name: string, nodes: Nodes, seen: seq<Seen>, x: Seen)
    requires InPlace(s, seen) && EndOf(seen) <= x.start <= x.end <= |s|
    ensures InPlace(s, seen + [x]) && EndOf(seen + [x]) == x.end
    ensures Done(s, name, nodes, seen + [x])
            == Done(s, name, nodes, seen) + s[EndOf(seen)..x.start] + ShownAs(s, name, nodes, x)
  {
    assert (seen + [x])[..|seen|] == seen;
  }

  // ----- every table once

  function Places(seen: seq<Seen>): (r: seq<(nat, nat)>)
    ensures |r| == |seen| && forall i :: 0 <= i < |seen| ==> r[i] == (seen[i].start, seen[i].end)
  {
    if seen == [] then [] else [(seen[0].start, seen[0].end)] + Places(seen[1..])
  }

  // From here on, no table of the document starts where the search runs past one that was longer than
  // its replacement.
  ghost predicate NoneOverrun(s: string, name: string, nodes: Nodes, from: nat)
    decreases |s| - from
  {
    match TableRange(s, name, from)
    case Between(a, e) =>
      var next := Resumed(s, name, nodes, from, a, e);
      NoneFrom(s, name, e, next) && NoneOverrun(s, name, nodes, next)
    case _ => true
  }

  lemma {:induction false} PlacesOfForeseen(s: string, name: string, nodes: Nodes, from: nat)
    requires Balanced(s)
    ensures Places(Foreseen(s, name, nodes, from)) == Tables(s, name, from) <==> NoneOverrun(s, name, nodes, from)
    decreases |s| - from
  {
    if TableRange(s, name, from).Between? {
      var a, e := TableRange(s, name, from).start, TableRange(s, name, from).end;
      var next := Resumed(s, name, nodes, from, a, e);
      PlacesOfForeseen(s, name, nodes, next);
      SearchFromLater(s, name, nodes, e, next);
      FirstPlace(Seen(a, e, JudgedFate(s, name, from)), Foreseen(s, name, nodes, next));
      SameHead((a, e), Places(Foreseen(s, name, nodes, next)), (a, e), Tables(s, name, e));
    }
  }

  lemma FirstPlace(x: Seen, rest: seq<Seen>)
    ensures Places([x] + rest) == [(x.start, x.end)] + Places(rest)
  {
    assert ([x] + rest)[1..] == rest;
  }

  // Going on from a later place gives the same tables, or misses one.
  lemma SearchFromLater(s: string, name: string, nodes: Nodes, e: nat, next: nat)
    requires Balanced(s) && e <= next
    ensures NoneFrom(s, name, e, next) ==> Tables(s, name, e) == Tables(s, name, next)
    ensures !NoneFrom(s, name, e, next) ==> Tables(s, name, e) != Places(Foreseen(s, name, nodes, next))
  {
    Skips(s, name, e, next);
  }

  // The tables visited are those of the document, each once and in order, if and only if no table of the
  // document starts where the search runs past one that was longer than its replacement.
  lemma EveryTableOnce(s: string, name: string, nodes: Nodes, log: seq<Visit>, c: Scan)
    requires Orderly(s, name, nodes) && Scanned(s, name, nodes, log) == Some(c) && Stops(s, name, c, None)
    ensures Spans(log) == Tables(s, name, 0) <==> NoneOverrun(s, name, nodes, 0)
  {
    RunAsForeseen(s, name, nodes, log, c);
    PlacesOfForeseen(s, name, nodes, 0);
    assert Spans(log) == Places(SeenIn(log));
  }

  // Short tables are not run past.
  lemma {:induction false} ShortNotOverrun(s: string, name: string, nodes: Nodes, from: nat)
    requires forall k :: 0 <= k < |Tables(s, name, from)| ==> Short(name, nodes, Tables(s, name, from)[k])
    ensures NoneOverrun(s, name, nodes, from)
    decreases |s| - from
  {
    if TableRange(s, name, from).Between? {
      var a, e := TableRange(s, name, from).start, TableRange(s, name, from).end;
      assert Short(name, nodes, Tables(s, name, from)[0]);
      assert Tables(s, name, from)[1..] == Tables(s, name, e);
      ShortNotOverrun(s, name, nodes, e);
      ResumedAtEnd(s, name, nodes, from, a, e);
    }
  }

  lemma ResumedAtEnd(s: string, name: string, nodes: Nodes, from: nat, a: nat, e: nat)
    requires Short(name, nodes, (a, e))
    ensures Resumed(s, name, nodes, from, a, e) == e
  {
  }

  // ----- the right tables, and the right nodes in them

  // The k-th visit leaves its table alone just when it is directly in "message".
  ghost predicate KeptRightly(s: string, log: seq<Visit>, k: nat)
    requires k < |log|
  {
    Kept(log[k]) <==> DirectlyIn(s, log[k].start, "message")
  }

  // If a brace opened since the search began is open at the first mention of the name, that mention is in
  // "message" just when the table at a is; else the last key of the text is "message" just when it is.
  ghost predicate RightlySpared(s: string, name: string, from: nat, a: nat) {
    JudgedIn(s, name, "message", from) <==> DirectlyIn(s, a, "message")
  }

  ghost predicate AllRightlySpared(s: string, name: string, nodes: Nodes, from: nat)
    decreases |s| - from
  {
    match TableRange(s, name, from)
    case Between(a, e) =>
      RightlySpared(s, name, from, a) && AllRightlySpared(s, name, nodes, Resumed(s, name, nodes, from, a, e))
    case _ => true
  }

  ghost predicate SparedRightly(s: string, x: Seen) {
    x.fate == Keep <==> DirectlyIn(s, x.start, "message")
  }

  ghost predicate AllSpared(s: string, seen: seq<Seen>) {
    forall k :: 0 <= k < |seen| ==> SparedRightly(s, seen[k])
  }

  lemma AllSparedSplit(s: string, x: Seen, rest: seq<Seen>)
    ensures AllSpared(s, [x] + rest) <==> SparedRightly(s, x) && AllSpared(s, rest)
  {
    var all := [x] + rest;
    if AllSpared(s, all) {
      assert SparedRightly(s, all[0]);
      forall k | 0 <= k < |rest| ensures SparedRightly(s, rest[k]) { assert SparedRightly(s, all[k + 1]); }
    }
  }

  lemma {:induction false} ForeseenSpared(s: string, name: string, nodes: Nodes, from: nat)
    ensures AllSpared(s, Foreseen(s, name, nodes, from)) <==> AllRightlySpared(s, name, nodes, from)
    decreases |s| - from
  {
    if TableRange(s, name, from).Between? {
      var a, e := TableRange(s, name, from).start, TableRange(s, name, from).end;
      var next := Resumed(s, name, nodes, from, a, e);
      ForeseenSpared(s, name, nodes, next);
      AllSparedSplit(s, Seen(a, e, JudgedFate(s, name, from)), Foreseen(s, name, nodes, next));
    }
  }

  // Of the tables visited, those directly in "message" and no others are kept, if and only if the
  // document has every one of them rightly spared.
  lemma KeptExactly(s: string, name: string, nodes: Nodes, log: seq<Visit>, c: Scan)
    requires Orderly(s, name, nodes) && Scanned(s, name, nodes, log) == Some(c) && Stops(s, name, c, None)
    ensures (forall k :: 0 <= k < |log| ==> KeptRightly(s, log, k)) <==> AllRightlySpared(s, name, nodes, 0)
  {
    RunAsForeseen(s, name, nodes, log, c);
    ForeseenSpared(s, name, nodes, 0);
    KeptAsSeen(s, log);
  }

  lemma KeptAsSeen(s: string, log: seq<Visit>)
    ensures (forall k :: 0 <= k < |log| ==> KeptRightly(s, log, k)) <==> AllSpared(s, SeenIn(log))
  {
    if AllSpared(s, SeenIn(log)) {
      forall k | 0 <= k < |log| ensures KeptRightly(s, log, k) { assert SparedRightly(s, SeenIn(log)[k]); }
    }
    if forall k :: 0 <= k < |log| ==> KeptRightly(s, log, k) {
      forall k | 0 <= k < |log| ensures SparedRightly(s, SeenIn(log)[k]) { assert KeptRightly(s, log, k); }
    }
  }

  // All tables, and what should come of them.
  ghost function Due(s: string, name: string, i: nat): seq<Seen>
    decreases |s| - i
  {
    match TableRange(s, name, i)
    case Between(a, e) => [Seen(a, e, DueFate(s, a))] + Due(s, name, e)
    case _ => []
  }

  ghost predicate AllRightlyJudged(s: string, name: string, nodes: Nodes, from: nat)
    decreases |s| - from
  {
    match TableRange(s, name, from)
    case Between(a, e) =>
      && JudgedFate(s, name, from) == DueFate(s, a)
      && AllRightlyJudged(s, name, nodes, Resumed(s, name, nodes, from, a, e))
    case _ => true
  }

  lemma {:induction false} ForeseenIsDue(s: string, name: string, nodes: Nodes, from: nat)
    requires Balanced(s)
    ensures Foreseen(s, name, nodes, from) == Due(s, name, from)
            <==> NoneOverrun(s, name, nodes, from) && AllRightlyJudged(s, name, nodes, from)
    decreases |s| - from
  {
    if TableRange(s, name, from).Between? {
      var a, e := TableRange(s, name, from).start, TableRange(s, name, from).end;
      var next := Resumed(s, name, nodes, from, a, e);
      ForeseenIsDue(s, name, nodes, next);
      DueFromLater(s, name, nodes, e, next);
      SameHead(Seen(a, e, JudgedFate(s, name, from)), Foreseen(s, name, nodes, next),
               Seen(a, e, DueFate(s, a)), Due(s, name, e));
    }
  }

  lemma SameHead<T>(x: T, rest: seq<T>, y: T, other: seq<T>)
    ensures [x] + rest == [y] + other <==> x == y && rest == other
  {
    assert ([x] + rest)[0] == x && ([x] + rest)[1..] == rest;
    assert ([y] + other)[0] == y && ([y] + other)[1..] == other;
  }

  lemma DueFromLater(s: string, name: string, nodes: Nodes, e: nat, next: nat)
    requires Balanced(s) && e <= next
    ensures NoneFrom(s, name, e, next) ==> Due(s, name, e) == Due(s, name, next)
    ensures !NoneFrom(s, name, e, next) ==> Due(s, name, e) != Foreseen(s, name, nodes, next)
  {
    Skips(s, name, e, next);
    if NoneFrom(s, name, e, next) {
      SameDue(s, name, e, next);
    } else {
      FirstDue(s, name, e);
      FirstForeseen(s, name, nodes, next);
    }
  }

  lemma FirstDue(s: string, name: string, i: nat)
    requires TableRange(s, name, i).Between?
    ensures Due(s, name, i) != [] && Due(s, name, i)[0].start == TableRange(s, name, i).start
  {
  }

  lemma SameDue(s: string, name: string, i: nat, j: nat)
    requires TableRange(s, name, i) == TableRange(s, name, j)
    ensures Due(s, name, i) == Due(s, name, j)
  {
  }

  lemma FirstForeseen(s: string, name: string, nodes: Nodes, from: nat)
    ensures var seen := Foreseen(s, name, nodes, from); seen != [] ==> from <= seen[0].start
  {
  }

  // The loop does to every table of the document what is due, if and only if no table starts where the
  // search runs past one, and every table is rightly judged.
  lemma RewritesExactly(s: string, name: string, nodes: Nodes, log: seq<Visit>, c: Scan)
    requires Orderly(s, name, nodes) && Scanned(s, name, nodes, log) == Some(c) && Stops(s, name, c, None)
    ensures SeenIn(log) == Due(s, name, 0) <==> NoneOverrun(s, name, nodes, 0) && AllRightlyJudged(s, name, nodes, 0)
  {
    RunAsForeseen(s, name, nodes, log, c);
    ForeseenIsDue(s, name, nodes, 0);
  }

  // ----- documents that mention the name for tables only

  ghost predicate OnlyAsTable(s: string, name: string) {
    forall m: nat :: Occurs(s, name, m) ==> TableAt(s, name, m)
  }

  // What the last key of the text stands for.
  ghost function LastKeyFate(s: string): Fate {
    FateBy(LastKeyIs(s, "message"),
           LastKeyIs(s, "routingNetOutput") || LastKeyIs(s, "binaryNetOutput") || LastKeyIs(s, "subsystemOutput"))
  }

  // A brace opened since the search began is open at the table, or the last key of the text happens to
  // stand for what is due.
  ghost predicate WellPlaced(s: string, from: nat, a: nat) {
    !NoneOpen(s, from, a) || LastKeyFate(s) == DueFate(s, a)
  }

  ghost predicate AllWellPlaced(s: string, name: string, nodes: Nodes, from: nat)
    decreases |s| - from
  {
    match TableRange(s, name, from)
    case Between(a, e) =>
      WellPlaced(s, from, a) && AllWellPlaced(s, name, nodes, Resumed(s, name, nodes, from, a, e))
    case _ => true
  }

  // That is all it takes in such documents.
  lemma {:induction false} RightlyJudgedExactly(s: string, name: string, nodes: Nodes, from: nat)
    requires OnlyAsTable(s, name)
    ensures AllRightlyJudged(s, name, nodes, from) <==> AllWellPlaced(s, name, nodes, from)
    decreases |s| - from
  {
    if TableRange(s, name, from).Between? {
      var a, e := TableRange(s, name, from).start, TableRange(s, name, from).end;
      RightlyJudgedExactly(s, name, nodes, Resumed(s, name, nodes, from, a, e));
      FirstMentionIsTable(s, name, from, a);
      JudgedAtTable(s, name, from, a);
    }
  }

  lemma JudgedAtTable(s: string, name: string, from: nat, a: nat)
    requires Find(s, name, from) == Some(a)
    ensures JudgedFate(s, name, from) == if NoneOpen(s, from, a) then LastKeyFate(s) else DueFate(s, a)
  {
  }

  lemma FirstMentionIsTable(s: string, name: string, from: nat, a: nat)
    requires OnlyAsTable(s, name) && TableRange(s, name, from).Between? && TableRange(s, name, from).start == a
    ensures Find(s, name, from) == Some(a)
  {
    TableRangeIsFirst(s, name, from);
    forall j: nat | from <= j < a ensures !Occurs(s, name, j) { assert !TableAt(s, name, j); }
    FoundFirst(s, name, from, a);
  }

  // ----- no error

  ghost predicate HasColon(s: string) {
    exists x: nat :: x + 1 < |s| && s[x] == ':'
  }

  // In an orderly document the loop ends without an error exactly if the text has a colon, the last
  // character aside.
  lemma EndsWithoutError(s: string, name: string, nodes: Nodes, log: seq<Visit>, c: Scan, error: Option<FhiclError>)
    requires Orderly(s, name, nodes) && Scanned(s, name, nodes, log) == Some(c) && Stops(s, name, c, error)
    ensures error == None <==> HasColon(s)
  {
    NeverUnclosed(s, name, c);
    ScannedIsSettled(s, name, nodes, log, c);
    if HasColon(s) {
      var x := ColonInText(s, name, nodes, log, c);
      NameIsFound(s, name, c, x);
    } else {
      NoVisitWithoutColon(s, name, nodes, log, c);
      NoNameWithoutColon(s, name);
    }
  }

  lemma NoVisitWithoutColon(s: string, name: string, nodes: Nodes, log: seq<Visit>, c: Scan)
    requires Scanned(s, name, nodes, log) == Some(c) && !HasColon(s)
    ensures log == [] && Current(s, c) == s && c.searchStart == 0
  {
    if log != [] {
      var b := BeforeLast(s, name, nodes, log, c);
      var k := ColonInTable(s, name, From(b));
      assert HasColon(s);
    }
  }

  lemma NoNameWithoutColon(s: string, name: string)
    requires !HasColon(s)
    ensures EnclosingName(s, name, 0) == None
  {
    var end: nat := match Enclosing(s, name, 0)
      case Some((o, _)) => o
      case None => if s == "" then 0 else |s| - 1;
    if LastColon(s, end).Some? { assert HasColon(s); }
  }

  lemma NameIsFound(s: string, name: string, c: Scan, x: nat)
    requires Settled(s, name, c) && Tidy(s, name) && x + 1 < |Current(s, c)| && Current(s, c)[x] == ':'
    ensures EnclosingName(Current(s, c), name, c.searchStart).Some?
  {
    var t, found := Current(s, c), Find(s, name, From(c));
    if found.Some? && !NoneOpen(s, From(c), found.value) {
      var o := SomeOpen(s, From(c), found.value);
      assert InnermostOpen(s, 0, found.value, o);
      var w :| Headed(s, o, w);
      NameFound(s, name, c, found.value, o, w);
    } else if found.Some? {
      FindCarries(s, name, c, found.value);
      NoneOpenCarries(s, name, c, found.value);
      BalancedEncloses(t, name, c.searchStart);
    } else {
      NotFoundCarries(s, name, c);
    }
  }

  lemma NotFoundCarries(s: string, name: string, c: Scan)
    requires Settled(s, name, c) && Find(s, name, From(c)) == None
    ensures Find(Current(s, c), name, c.searchStart) == None
  {
    var t, found := Current(s, c), Find(Current(s, c), name, c.searchStart);
    if found.Some? {
      OccursInRest(s, name, c, found.value - |c.done|);
    }
  }

  lemma ColonInText(s: string, name: string, nodes: Nodes, log: seq<Visit>, c: Scan) returns (x: nat)
    requires Word(name) && Scanned(s, name, nodes, log) == Some(c) && HasColon(s)
    ensures x + 1 < |Current(s, c)| && Current(s, c)[x] == ':'
  {
    if log == [] {
      x :| x + 1 < |s| && s[x] == ':';
      assert Current(s, c) == s;
    } else {
      var b := BeforeLast(s, name, nodes, log, c);
      x := ColonBehind(s, name, nodes, b, Last(log));
    }
  }

  lemma ColonBehind(s: string, name: string, nodes: Nodes, c: Scan, v: Visit) returns (x: nat)
    requires c.p <= |s| && Fits(s, c, v) && Next(s, name, c, v)
    ensures var t := Current(s, After(s, name, nodes, c, v)); x + 1 < |t| && t[x] == ':'
  {
    var y := ColonInVisit(s, name, nodes, c, v);
    x := InMiddle(c.done + s[c.p..v.start], Shown(s, name, nodes, v), s[v.end..], y);
  }

  lemma InMiddle(a: string, b: string, c: string, y: nat) returns (x: nat)
    requires y + 1 < |b|
    ensures x + 1 < |a + b + c| && (a + b + c)[x] == b[y]
  {
    x := |a| + y;
  }

  lemma ColonInVisit(s: string, name: string, nodes: Nodes, c: Scan, v: Visit) returns (y: nat)
    requires c.p <= |s| && Fits(s, c, v) && Next(s, name, c, v)
    ensures y + 1 < |Shown(s, name, nodes, v)| && Shown(s, name, nodes, v)[y] == ':'
  {
    var k := ColonKept(s, name, c, v);
    y := ColonShown(s, name, nodes, v, k);
  }

  lemma ColonShown(s: string, name: string, nodes: Nodes, v: Visit, k: nat) returns (y: nat)
    requires v.start <= k && k + 1 < v.end <= |s| && s[k] == ':'
    ensures y + 1 < |Shown(s, name, nodes, v)| && Shown(s, name, nodes, v)[y] == ':'
  {
    if Kept(v) {
      y := k - v.start;
    } else {
      y := ColonInFilled(name, NodeText(nodes, v.enclosing));
    }
  }

  lemma ColonKept(s: string, name: string, c: Scan, v: Visit) returns (k: nat)
    requires c.p <= |s| && Fits(s, c, v) && Next(s, name, c, v)
    ensures v.start <= k && k + 1 < v.end && s[k] == ':'
  {
    k := ColonInTable(s, name, From(c));
  }

  lemma ColonInFilled(name: string, text: string) returns (y: nat)
    ensures y + 1 < |Filled(name, text)| && Filled(name, text)[y] == ':'
  {
    y := 1 + |name|;
  }

  lemma ColonInTable(s: string, name: string, i: nat) returns (k: nat)
    requires TableRange(s, name, i).Between?
    ensures var r := TableRange(s, name, i); r.start <= k && k + 1 < r.end && s[k] == ':'
  {
    var a := TableRange(s, name, i).start;
    k := ColonOf(s, a + |name|);
    ClosingAfter(s, BraceOf(s, name, a).value + 1, 1);
  }

  // What is due: a table directly in "message" is unchanged; one directly in a sender holds the nodes of other
  // subsystems, and any other those of its own.
  ghost predicate ComesAsDue(s: string, t: string, name: string, nodes: Nodes, v: Visit, p: nat, q: nat) {
    && p <= q <= |t| && v.start <= v.end <= |s|
    && if DirectlyIn(s, v.start, "message") then t[p..q] == s[v.start..v.end]
       else if || DirectlyIn(s, v.start, "routingNetOutput") || DirectlyIn(s, v.start, "binaryNetOutput")
               || DirectlyIn(s, v.start, "subsystemOutput")
       then Lists(t, name, p, q, nodes.inter)
       else Lists(t, name, p, q, nodes.intra)
  }

  // All of it for one document: it ends as foreseen, and as it should exactly if no table is run past and
  // every table is rightly judged.
  method FillOrderlyTables(d: ProcessDocument, name: string, nodes: Nodes)
    returns (ghost log: seq<Visit>, ghost places: seq<nat>, ghost ends: seq<nat>)
    requires Orderly(d.fhiclUsed, name, nodes) && HasColon(d.fhiclUsed)
    modifies d
    ensures SeenIn(log) == Foreseen(old(d.fhiclUsed), name, nodes, 0)
    ensures Written(old(d.fhiclUsed), d.fhiclUsed, name, nodes, log, places, ends)
    ensures InPlace(old(d.fhiclUsed), SeenIn(log)) && EndOf(SeenIn(log)) <= |old(d.fhiclUsed)|
    ensures d.fhiclUsed == Rewritten(old(d.fhiclUsed), name, nodes, SeenIn(log))
    ensures SeenIn(log) == Due(old(d.fhiclUsed), name, 0)
            <==> NoneOverrun(old(d.fhiclUsed), name, nodes, 0) && AllRightlyJudged(old(d.fhiclUsed), name, nodes, 0)
    ensures NoneOverrun(old(d.fhiclUsed), name, nodes, 0) && AllRightlyJudged(old(d.fhiclUsed), name, nodes, 0) ==>
      && Spans(log) == Tables(old(d.fhiclUsed), name, 0)
      && forall k :: 0 <= k < |log| ==>
           ComesAsDue(old(d.fhiclUsed), d.fhiclUsed, name, nodes, log[k], places[k], ends[k])
    ensures Balanced(d.fhiclUsed)
  {
    ghost var s := d.fhiclUsed;
    var error;
    log, error, places, ends := d.FillTables(name, nodes);
    ghost var c := Scanned(s, name, nodes, log).value;
    EndsWithoutError(s, name, nodes, log, c, error);
    Outcome(s, name, nodes, log, c);
    if SeenIn(log) == Due(s, name, 0) {
      AllComeAsDue(s, d.fhiclUsed, name, nodes, log, places, ends);
      EveryTableOnce(s, name, nodes, log, c);
    }
  }

  lemma AllComeAsDue(s: string, t: string, name: string, nodes: Nodes, log: seq<Visit>, places: seq<nat>,
                     ends: seq<nat>)
    requires Written(s, t, name, nodes, log, places, ends) && SeenIn(log) == Due(s, name, 0)
    ensures forall k :: 0 <= k < |log| ==> ComesAsDue(s, t, name, nodes, log[k], places[k], ends[k])
  {
    forall k | 0 <= k < |log| ensures ComesAsDue(s, t, name, nodes, log[k], places[k], ends[k]) {
      DueAt(s, name, 0, k);
      assert Comes(s, t, name, nodes, log[k], places[k], ends[k]);
      FateNamed(s, log[k]);
    }
  }

  lemma {:induction false} DueAt(s: string, name: string, i: nat, k: nat)
    requires k < |Due(s, name, i)|
    ensures Due(s, name, i)[k].fate == DueFate(s, Due(s, name, i)[k].start)
    decreases k
  {
    if k > 0 {
      DueAt(s, name, TableRange(s, name, i).end, k - 1);
    }
  }

  // The names behind the fates.
  lemma FateNamed(s: string, v: Visit)
    requires FateOf(v) == DueFate(s, v.start)
    ensures v.enclosing == "message" <==> DirectlyIn(s, v.start, "message")
    ensures v.enclosing != "message" ==>
      (v.enclosing in ["routingNetOutput", "binaryNetOutput", "subsystemOutput"]
       <==> DirectlyIn(s, v.start, "routingNetOutput") || DirectlyIn(s, v.start, "binaryNetOutput")
            || DirectlyIn(s, v.start, "subsystemOutput"))
  {
  }

  lemma Outcome(s: string, name: string, nodes: Nodes, log: seq<Visit>, c: Scan)
    requires Orderly(s, name, nodes) && Scanned(s, name, nodes, log) == Some(c) && Stops(s, name, c, None)
    ensures SeenIn(log) == Foreseen(s, name, nodes, 0) && Balanced(Current(s, c))
    ensures InPlace(s, SeenIn(log)) && EndOf(SeenIn(log)) <= |s|
    ensures Current(s, c) == Rewritten(s, name, nodes, SeenIn(log))
    ensures SeenIn(log) == Due(s, name, 0) <==> NoneOverrun(s, name, nodes, 0) && AllRightlyJudged(s, name, nodes, 0)
  {
    RunAsForeseen(s, name, nodes, log, c);
    TextIsRewritten(s, name, nodes, log, c);
    RewritesExactly(s, name, nodes, log, c);
    StaysBalanced(s, name, nodes, log, c);
  }
}
