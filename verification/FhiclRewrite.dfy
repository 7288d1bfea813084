/** Filling in the tables of a process's FHiCL document: every table of a given name is replaced by
    one that lists nodes, while the text is searched from an offset into the text as it was before
    the replacement. */
module FhiclRewrite {
  import opened Wrappers
  import opened Strings
  import opened FhiclSearch
  import opened FhiclBraces

  // The text of the nodes, for transfers between subsystems and within one.
  datatype Nodes = Nodes(inter: string, intra: string)

  predicate Sender(enclosing: string) {
    enclosing == "routingNetOutput" || enclosing == "binaryNetOutput" || enclosing == "subsystemOutput"
  }

  function NodeText(nodes: Nodes, enclosing: string): string {
    if Sender(enclosing) then nodes.inter else nodes.intra
  }

  function Filled(name: string, text: string): string {
    "\n" + name + ": { \n" + text + "\n } \n"
  }

  // One table that was found: its place in the document as it was at the start, and the table that
  // was taken to enclose it.
  datatype Visit = Visit(start: nat, end: nat, enclosing: string)

  predicate Kept(v: Visit) {
    v.enclosing == "message"
  }

  // What becomes of a table.
  datatype Fate = Keep | Inter | Intra

  function FateBy(message: bool, sender: bool): Fate {
    if message then Keep else if sender then Inter else Intra
  }

  function FateOf(v: Visit): Fate {
    FateBy(Kept(v), Sender(v.enclosing))
  }

  // ----- the text after some visits

  // In the middle of the work: what the part before p has become, and the offset to search from,
  // which counts the last table as long as it was before it was replaced.
  datatype Scan = Scan(done: string, p: nat, searchStart: nat)

  function Current(s: string, c: Scan): string
    requires c.p <= |s|
  {
    c.done + s[c.p..]
  }

  // How far the offset has run ahead of what has been rewritten.
  function Ahead(c: Scan): nat {
    if c.searchStart > |c.done| then c.searchStart - |c.done| else 0
  }

  // Where in the document at the start the search begins.
  function From(c: Scan): nat {
    c.p + Ahead(c)
  }

  function Shown(s: string, name: string, nodes: Nodes, v: Visit): string
    requires v.start <= v.end <= |s|
  {
    if Kept(v) then s[v.start..v.end] else Filled(name, NodeText(nodes, v.enclosing))
  }

  predicate Fits(s: string, c: Scan, v: Visit) {
    c.p <= v.start && v.start + 2 < v.end <= |s|
  }

  function After(s: string, name: string, nodes: Nodes, c: Scan, v: Visit): Scan
    requires Fits(s, c, v)
  {
    Scan(c.done + s[c.p..v.start] + Shown(s, name, nodes, v), v.end, |c.done| + (v.end - c.p))
  }

  function Init(log: seq<Visit>): seq<Visit>
    requires log != []
  {
    log[..|log| - 1]
  }

  function Last(log: seq<Visit>): Visit
    requires log != []
  {
    log[|log| - 1]
  }

  // The visit is the next table from where the search begins.
  predicate Next(s: string, name: string, c: Scan, v: Visit)
    requires c.p <= |s|
  {
    && TableRange(s, name, From(c)) == Between(v.start, v.end)
    && EnclosingName(Current(s, c), name, c.searchStart) == Some(v.enclosing)
  }

  // The state after visits each of which is the next table, or None if one is not.
  function Scanned(s: string, name: string, nodes: Nodes, log: seq<Visit>): (r: Option<Scan>)
    ensures r.Some? ==> r.value.p <= |s|
  {
    if log == [] then Some(Scan("", 0, 0))
    else match Scanned(s, name, nodes, Init(log))
      case None => None
      case Some(c) =>
        if Fits(s, c, Last(log)) && Next(s, name, c, Last(log)) then Some(After(s, name, nodes, c, Last(log))) else None
  }

  // ----- the stale offset

  // The node text does not mention the table.
  ghost predicate Quiet(name: string, nodes: Nodes) {
    forall i :: 0 <= i ==> !Occurs(nodes.inter, name, i) && !Occurs(nodes.intra, name, i)
  }

  lemma NoMention(s: string, name: string, j: nat, k: nat)
    requires Word(name) && j <= k < j + |name| && k < |s| && !WordChar(s[k])
    ensures !Occurs(s, name, j)
  {
    assert WordChar(name[k - j]);
    if j + |name| <= |s| { assert s[j..j + |name|][k - j] == s[k]; }
  }

  // In a filled table, the name stands at the start only.
  lemma FilledMentionsOnce(a: string, name: string, text: string, b: string, j: nat)
    requires Word(name) && forall i :: 0 <= i ==> !Occurs(text, name, i)
    requires |a| + 2 <= j < |a| + |Filled(name, text)|
    ensures !Occurs(a + Filled(name, text) + b, name, j)
  {
    var f, s, n := Filled(name, text), a + Filled(name, text) + b, |name|;
    assert s[|a| + 1 + n] == f[1 + n] == ':';
    var from, to := |a| + n + 6, |a| + n + 6 + |text|;
    if j <= |a| + 1 + n {
      NoMention(s, name, j, |a| + 1 + n);
    } else if j < from {
      assert s[j] == f[j - |a|] == ": { \n"[j - |a| - 1 - n];
      NoMention(s, name, j, j);
    } else if j < to {
      assert s[to] == f[to - |a|] == '\n';
      if to < j + n { NoMention(s, name, j, to); }
      else {
        assert s[j..j + n] == text[j - from..j - from + n];
        assert !Occurs(text, name, j - from);
      }
    } else {
      assert s[j] == f[j - |a|] == "\n } \n"[j - to];
      NoMention(s, name, j, j);
    }
  }

  lemma NoTableWithoutMention(s: string, name: string, j: nat)
    requires !Occurs(s, name, j)
    ensures !TableAt(s, name, j)
  {
  }

  // The name does not stand where the offset lags behind.
  ghost predicate NoneMentionedTwice(s: string, name: string, c: Scan)
    requires c.p <= |s|
  {
    forall j :: c.searchStart <= j < |c.done| ==> !Occurs(Current(s, c), name, j)
  }

  // The search from the stale offset finds what a search of the original document finds.
  lemma NextFound(s: string, name: string, c: Scan)
    requires c.p <= |s| && NoneMentionedTwice(s, name, c)
    ensures TableRange(s, name, From(c)) == MovedRange(TableRange(s[c.p..], name, Ahead(c)), c.p)
    ensures TableRange(Current(s, c), name, c.searchStart) == MovedRange(TableRange(s[c.p..], name, Ahead(c)), |c.done|)
  {
    RestOfDocument(s, name, c);
    NothingLags(s, name, c);
  }

  lemma RestOfDocument(s: string, name: string, c: Scan)
    requires c.p <= |s|
    ensures TableRange(s, name, From(c)) == MovedRange(TableRange(s[c.p..], name, Ahead(c)), c.p)
  {
    TableRangeShift(s, name, c.p, Ahead(c));
  }

  lemma NothingLags(s: string, name: string, c: Scan)
    requires c.p <= |s| && NoneMentionedTwice(s, name, c)
    ensures TableRange(Current(s, c), name, c.searchStart) == MovedRange(TableRange(s[c.p..], name, Ahead(c)), |c.done|)
  {
    forall j: nat | c.searchStart <= j < |c.done| + Ahead(c) ensures !TableAt(c.done + s[c.p..], name, j) {
      assert !Occurs(Current(s, c), name, j);
      NoTableWithoutMention(c.done + s[c.p..], name, j);
    }
    LaterInRest(c.done, s[c.p..], name, c.searchStart, Ahead(c));
  }

  lemma LaterInRest(done: string, rest: string, name: string, i: nat, ahead: nat)
    requires i <= |done| + ahead && forall j :: i <= j < |done| + ahead ==> !TableAt(done + rest, name, j)
    ensures TableRange(done + rest, name, i) == MovedRange(TableRange(rest, name, ahead), |done|)
  {
    TableRangeLater(done + rest, name, i, |done| + ahead);
    SameRest(done, rest, name, ahead);
  }

  lemma SameRest(done: string, rest: string, name: string, ahead: nat)
    ensures TableRange(done + rest, name, |done| + ahead) == MovedRange(TableRange(rest, name, ahead), |done|)
  {
    assert (done + rest)[|done|..] == rest;
    TableRangeShift(done + rest, name, |done|, ahead);
  }

  lemma AfterMentionsNothing(s: string, name: string, nodes: Nodes, c: Scan, v: Visit)
    requires Word(name) && Quiet(name, nodes) && Fits(s, c, v)
    ensures NoneMentionedTwice(s, name, After(s, name, nodes, c, v))
  {
    if !Kept(v) {
      var d, a, text := After(s, name, nodes, c, v), c.done + s[c.p..v.start], NodeText(nodes, v.enclosing);
      assert Current(s, d) == a + Filled(name, text) + s[v.end..];
      forall j: nat | |a| + 2 <= j < |a| + |Filled(name, text)| ensures !Occurs(Current(s, d), name, j) {
        FilledMentionsOnce(a, name, text, s[v.end..], j);
      }
    }
  }

  // ----- the loop of the source

  datatype FhiclError = UnclosedTable | NoColon

  // What ends the loop.
  ghost predicate Stops(s: string, name: string, c: Scan, error: Option<FhiclError>)
    requires c.p <= |s|
  {
    var next := TableRange(s, name, From(c));
    var enclosing := EnclosingName(Current(s, c), name, c.searchStart);
    match error
    case None => next == Nowhere && enclosing.Some?
    case Some(UnclosedTable) => next == Unclosed
    case Some(NoColon) => next != Unclosed && enclosing == None
  }

  // The visit that belongs to a table found in the current text.
  lemma Place(s: string, name: string, c: Scan, range: Range, enclosing: string) returns (v: Visit)
    requires c.p <= |s| && NoneMentionedTwice(s, name, c)
    requires range == TableRange(Current(s, c), name, c.searchStart) && range.Between?
    requires EnclosingName(Current(s, c), name, c.searchStart) == Some(enclosing)
    ensures Fits(s, c, v) && Next(s, name, c, v) && v.enclosing == enclosing
    ensures |c.done| + (v.start - c.p) == range.start && |c.done| + (v.end - c.p) == range.end
  {
    PlaceInDocument(s, name, c, range);
    v := Visit(range.start - |c.done| + c.p, range.end - |c.done| + c.p, enclosing);
  }

  lemma PlaceInDocument(s: string, name: string, c: Scan, range: Range)
    requires c.p <= |s| && NoneMentionedTwice(s, name, c)
    requires range == TableRange(Current(s, c), name, c.searchStart) && range.Between?
    ensures |c.done| <= range.start && range.start + 2 < range.end <= |Current(s, c)|
    ensures TableRange(s, name, From(c)) == Between(range.start - |c.done| + c.p, range.end - |c.done| + c.p)
  {
    NextFound(s, name, c);
  }

  // t[:a] + x + t[e:]
  function Replace(t: string, a: nat, e: nat, x: string): string
    requires a <= e <= |t|
  {
    t[..a] + x + t[e..]
  }

  lemma TextAfter(s: string, name: string, nodes: Nodes, c: Scan, v: Visit)
    requires Fits(s, c, v)
    ensures var t, a, e := Current(s, c), |c.done| + (v.start - c.p), |c.done| + (v.end - c.p);
            Current(s, After(s, name, nodes, c, v))
            == if Kept(v) then t else Replace(t, a, e, Filled(name, NodeText(nodes, v.enclosing)))
  {
    Placed(c.done, s, c.p, v, Shown(s, name, nodes, v));
  }

  lemma TextAfterTurn(s: string, name: string, nodes: Nodes, c: Scan, v: Visit, range: Range, enclosing: string)
    requires Fits(s, c, v) && range.Between? && v.enclosing == enclosing
    requires |c.done| + (v.start - c.p) == range.start && |c.done| + (v.end - c.p) == range.end
    ensures range.start <= range.end <= |Current(s, c)| && After(s, name, nodes, c, v).searchStart == range.end
    ensures Current(s, After(s, name, nodes, c, v)) ==
      if enclosing == "message" then Current(s, c)
      else Replace(Current(s, c), range.start, range.end, Filled(name, NodeText(nodes, enclosing)))
  {
    TextAfter(s, name, nodes, c, v);
  }

  // Replacing in the text so far what stands at a visit.
  lemma Placed(done: string, s: string, p: nat, v: Visit, shown: string)
    requires p <= v.start <= v.end <= |s|
    ensures var t := done + s[p..];
            && done + s[p..v.start] + shown + s[v.end..]
               == t[..|done| + (v.start - p)] + shown + t[|done| + (v.end - p)..]
            && (shown == s[v.start..v.end] ==> done + s[p..v.start] + shown + s[v.end..] == t)
  {
    var t := done + s[p..];
    assert t[..|done| + (v.start - p)] == done + s[p..v.start];
    assert t[|done| + (v.end - p)..] == s[v.end..];
    if shown == s[v.start..v.end] { assert s[p..v.start] + shown + s[v.end..] == s[p..]; }
  }

  ghost predicate Going(s: string, name: string, nodes: Nodes, log: seq<Visit>, c: Scan) {
    c.p <= |s| && Scanned(s, name, nodes, log) == Some(c) && NoneMentionedTwice(s, name, c)
  }

  // One turn of the loop.
  lemma Turn(s: string, name: string, nodes: Nodes, log: seq<Visit>, c: Scan, range: Range, enclosing: string)
    returns (v: Visit)
    requires Word(name) && Quiet(name, nodes) && Going(s, name, nodes, log, c)
    requires range == TableRange(Current(s, c), name, c.searchStart) && range.Between?
    requires EnclosingName(Current(s, c), name, c.searchStart) == Some(enclosing)
    ensures Fits(s, c, v) && Going(s, name, nodes, log + [v], After(s, name, nodes, c, v))
    ensures v.enclosing == enclosing && c.p < v.end
    ensures |c.done| + (v.start - c.p) == range.start && |c.done| + (v.end - c.p) == range.end
  {
    v := Place(s, name, c, range, enclosing);
    AfterMentionsNothing(s, name, nodes, c, v);
    Logged(s, name, nodes, log, c, v);
  }

  lemma Logged(s: string, name: string, nodes: Nodes, log: seq<Visit>, c: Scan, v: Visit)
    requires c.p <= |s| && Scanned(s, name, nodes, log) == Some(c) && Fits(s, c, v) && Next(s, name, c, v)
    ensures Scanned(s, name, nodes, log + [v]) == Some(After(s, name, nodes, c, v))
  {
    assert Init(log + [v]) == log && Last(log + [v]) == v;
  }

  // ----- every table once

  // The tables of a document from i on, one after the other.
  ghost function Tables(s: string, name: string, i: nat): (r: seq<(nat, nat)>)
    decreases |s| - i
  {
    match TableRange(s, name, i)
    case Between(a, e) => [(a, e)] + Tables(s, name, e)
    case _ => []
  }

  function Spans(log: seq<Visit>): (r: seq<(nat, nat)>)
    ensures |r| == |log| && forall i :: 0 <= i < |log| ==> r[i] == (log[i].start, log[i].end)
  {
    if log == [] then [] else Spans(Init(log)) + [(Last(log).start, Last(log).end)]
  }

  // How far the search runs past a table that was longer than its replacement.
  function RunsPast(name: string, nodes: Nodes, fate: Fate, start: nat, end: nat): nat {
    if fate == Keep then 0
    else
      var n := |Filled(name, if fate == Inter then nodes.inter else nodes.intra)|;
      if start + n < end then end - start - n else 0
  }

  function Overrun(name: string, nodes: Nodes, v: Visit): nat {
    RunsPast(name, nodes, FateOf(v), v.start, v.end)
  }

  ghost predicate NoneFrom(s: string, name: string, i: nat, j: nat) {
    forall k :: i <= k < j ==> !TableAt(s, name, k)
  }

  // No table starts in the part of the document that the search runs past.
  ghost predicate Clear(s: string, name: string, nodes: Nodes, v: Visit) {
    NoneFrom(s, name, v.end, v.end + Overrun(name, nodes, v))
  }

  ghost predicate AllClear(s: string, name: string, nodes: Nodes, log: seq<Visit>) {
    forall i :: 0 <= i < |log| ==> Clear(s, name, nodes, log[i])
  }

  lemma AllClearSplit(s: string, name: string, nodes: Nodes, log: seq<Visit>)
    requires log != []
    ensures AllClear(s, name, nodes, log) <==> AllClear(s, name, nodes, Init(log)) && Clear(s, name, nodes, Last(log))
  {
    forall i | 0 <= i < |log| - 1 ensures Init(log)[i] == log[i] {}
    if AllClear(s, name, nodes, Init(log)) && Clear(s, name, nodes, Last(log)) {
      forall i | 0 <= i < |log| ensures Clear(s, name, nodes, log[i]) {
        if i < |log| - 1 { assert Clear(s, name, nodes, Init(log)[i]); }
      }
    }
  }

  lemma AheadIsOverrun(s: string, name: string, nodes: Nodes, c: Scan, v: Visit)
    requires Fits(s, c, v)
    ensures var d := After(s, name, nodes, c, v); d.p == v.end && Ahead(d) == Overrun(name, nodes, v)
  {
  }

  // A search from i and one from j >= i: the same if no table starts in between, else an earlier one.
  lemma Skips(s: string, name: string, i: nat, j: nat)
    requires i <= j && Balanced(s)
    ensures NoneFrom(s, name, i, j) ==> TableRange(s, name, i) == TableRange(s, name, j)
    ensures !NoneFrom(s, name, i, j) ==> TableRange(s, name, i).Between? && TableRange(s, name, i).start < j
  {
    if NoneFrom(s, name, i, j) {
      TableRangeLater(s, name, i, j);
    } else {
      TableRangeIsFirst(s, name, i);
      BalancedHasRange(s, name, i);
    }
  }

  lemma BeforeLast(s: string, name: string, nodes: Nodes, log: seq<Visit>, c: Scan) returns (b: Scan)
    requires Scanned(s, name, nodes, log) == Some(c) && log != []
    ensures Scanned(s, name, nodes, Init(log)) == Some(b) && Fits(s, b, Last(log)) && Next(s, name, b, Last(log))
    ensures c == After(s, name, nodes, b, Last(log)) && c.p == Last(log).end
  {
    b := Scanned(s, name, nodes, Init(log)).value;
  }

  // As long as nothing is run past, the visits are the first tables of the document.
  lemma {:induction false} VisitsAreTables(s: string, name: string, nodes: Nodes, log: seq<Visit>, c: Scan)
    requires Balanced(s) && Scanned(s, name, nodes, log) == Some(c)
    requires log != [] ==> AllClear(s, name, nodes, Init(log))
    ensures Tables(s, name, 0) == Spans(log) + Tables(s, name, c.p)
    decreases |log|
  {
    if log != [] {
      var b := BeforeLast(s, name, nodes, log, c);
      if Init(log) != [] { AllClearSplit(s, name, nodes, Init(log)); }
      VisitsAreTables(s, name, nodes, Init(log), b);
      FromIsPast(s, name, nodes, Init(log), b);
      FirstVisited(s, name, b, Last(log));
      Regrouped(Spans(Init(log)), (Last(log).start, Last(log).end), Tables(s, name, c.p));
    }
  }

  lemma Regrouped(a: seq<(nat, nat)>, x: (nat, nat), b: seq<(nat, nat)>)
    ensures a + ([x] + b) == (a + [x]) + b
  {
  }

  lemma FirstVisited(s: string, name: string, c: Scan, v: Visit)
    requires Balanced(s) && c.p <= |s| && Next(s, name, c, v) && NoneFrom(s, name, c.p, From(c))
    ensures Tables(s, name, c.p) == [(v.start, v.end)] + Tables(s, name, v.end)
  {
    Skips(s, name, c.p, From(c));
  }

  // Where the search begins, after visits.
  lemma FromIsPast(s: string, name: string, nodes: Nodes, log: seq<Visit>, c: Scan)
    requires Scanned(s, name, nodes, log) == Some(c)
    ensures NoneFrom(s, name, c.p, From(c)) <==> (log == [] || Clear(s, name, nodes, Last(log)))
  {
    if log != [] { AheadIsOverrun(s, name, nodes, Scanned(s, name, nodes, Init(log)).value, Last(log)); }
  }

  // A table that is run past is missing among the visits.
  lemma {:induction false} MissedTable(s: string, name: string, nodes: Nodes, log: seq<Visit>, c: Scan) returns (i: nat)
    requires Balanced(s) && Scanned(s, name, nodes, log) == Some(c)
    requires log != [] && !AllClear(s, name, nodes, Init(log))
    ensures i < |log| && i < |Tables(s, name, 0)| && Tables(s, name, 0)[i] != Spans(log)[i]
    decreases |log|
  {
    var b := BeforeLast(s, name, nodes, log, c);
    if Init(log) != [] {
      AllClearSplit(s, name, nodes, Init(log));
      if !AllClear(s, name, nodes, Init(Init(log))) {
        i := MissedTable(s, name, nodes, Init(log), b);
        return;
      }
    }
    i := |log| - 1;
    VisitsAreTables(s, name, nodes, Init(log), b);
    FromIsPast(s, name, nodes, Init(log), b);
    FirstMissed(s, name, b, Last(log));
  }

  // The next table is one that starts before where the search begins.
  lemma FirstMissed(s: string, name: string, c: Scan, v: Visit)
    requires Balanced(s) && c.p <= |s| && Next(s, name, c, v) && !NoneFrom(s, name, c.p, From(c))
    ensures Tables(s, name, c.p) != [] && Tables(s, name, c.p)[0].0 < v.start
  {
    Skips(s, name, c.p, From(c));
  }

  // When the loop has ended, every table of the document has been visited once, in order, if and
  // only if no table starts where the search ran past a table longer than its replacement.
  lemma AllTablesIfClear(s: string, name: string, nodes: Nodes, log: seq<Visit>, c: Scan)
    requires Balanced(s) && Scanned(s, name, nodes, log) == Some(c) && Stops(s, name, c, None)
    ensures Spans(log) == Tables(s, name, 0) <==> AllClear(s, name, nodes, log)
  {
    if log != [] { AllClearSplit(s, name, nodes, log); }
    if log != [] && !AllClear(s, name, nodes, Init(log)) {
      var i := MissedTable(s, name, nodes, log, c);
    } else {
      VisitsAreTables(s, name, nodes, log, c);
      FromIsPast(s, name, nodes, log, c);
      Skips(s, name, c.p, From(c));
      assert Tables(s, name, c.p) == [] <==> AllClear(s, name, nodes, log);
    }
  }

  // A table no longer than what may take its place.
  predicate Short(name: string, nodes: Nodes, span: (nat, nat)) {
    span.1 <= span.0 + |Filled(name, nodes.inter)| && span.1 <= span.0 + |Filled(name, nodes.intra)|
  }

  ghost predicate ShortTables(s: string, name: string, nodes: Nodes) {
    forall k :: 0 <= k < |Tables(s, name, 0)| ==> Short(name, nodes, Tables(s, name, 0)[k])
  }

  // If the tables of the document are short, the search never runs past anything.
  lemma {:induction false} ShortTablesAreClear(s: string, name: string, nodes: Nodes, log: seq<Visit>, c: Scan)
    requires Balanced(s) && ShortTables(s, name, nodes) && Scanned(s, name, nodes, log) == Some(c)
    ensures AllClear(s, name, nodes, log) && Ahead(c) == 0
    ensures Tables(s, name, 0) == Spans(log) + Tables(s, name, c.p)
    decreases |log|
  {
    if log == [] {
      VisitsAreTables(s, name, nodes, log, c);
    } else {
      var b := BeforeLast(s, name, nodes, log, c);
      ShortTablesAreClear(s, name, nodes, Init(log), b);
      VisitsAreTables(s, name, nodes, log, c);
      LastOfPrefix(Tables(s, name, 0), log, Tables(s, name, c.p));
      ShortIsClear(s, name, nodes, b, Last(log));
      AllClearSplit(s, name, nodes, log);
    }
  }

  lemma LastOfPrefix(tables: seq<(nat, nat)>, log: seq<Visit>, rest: seq<(nat, nat)>)
    requires log != [] && tables == Spans(log) + rest
    ensures |log| <= |tables| && tables[|log| - 1] == (Last(log).start, Last(log).end)
  {
  }

  lemma ShortIsClear(s: string, name: string, nodes: Nodes, c: Scan, v: Visit)
    requires Fits(s, c, v) && Short(name, nodes, (v.start, v.end))
    ensures Clear(s, name, nodes, v) && Ahead(After(s, name, nodes, c, v)) == 0
  {
    AheadIsOverrun(s, name, nodes, c, v);
  }

  // Then every table of the document is visited once, in order.
  lemma EveryShortTableOnce(s: string, name: string, nodes: Nodes, log: seq<Visit>, c: Scan)
    requires Balanced(s) && ShortTables(s, name, nodes)
    requires Scanned(s, name, nodes, log) == Some(c) && Stops(s, name, c, None)
    ensures Spans(log) == Tables(s, name, 0)
  {
    ShortTablesAreClear(s, name, nodes, log, c);
    AllTablesIfClear(s, name, nodes, log, c);
  }

  // ----- braces stay balanced

  lemma FilledIsBalanced(name: string, text: string)
    requires Word(name) && Balanced(text)
    ensures Balanced(Filled(name, text))
  {
    var head, x, n := "\n" + name + ": ", " \n" + text + "\n ", |name|;
    assert name[..n] == name;
    forall k | 0 <= k < |head| ensures Weight(head[k]) == 0 {
      if 1 <= k <= n { assert head[k] == name[k - 1]; }
    }
    BalancedPlain(head);
    BracedIsBalanced(text);
    assert Filled(name, text) == head + (Braced(x) + " \n");
    BalancedJoin(head, Braced(x) + " \n");
  }

  // The loop never meets a table that is not closed.
  lemma NeverUnclosed(s: string, name: string, c: Scan)
    requires Balanced(s) && c.p <= |s|
    ensures !Stops(s, name, c, Some(UnclosedTable))
  {
    BalancedHasRange(s, name, From(c));
  }

  // Filling in balanced text keeps the document balanced.
  lemma {:induction false} StaysBalanced(s: string, name: string, nodes: Nodes, log: seq<Visit>, c: Scan)
    requires Word(name) && Balanced(s) && Balanced(nodes.inter) && Balanced(nodes.intra)
    requires Scanned(s, name, nodes, log) == Some(c)
    ensures Balanced(Current(s, c))
    decreases |log|
  {
    if log == [] {
      assert Current(s, c) == s;
    } else {
      var b := BeforeLast(s, name, nodes, log, c);
      StaysBalanced(s, name, nodes, Init(log), b);
      BalancedAfter(s, name, nodes, b, Last(log));
    }
  }

  lemma BalancedAfter(s: string, name: string, nodes: Nodes, c: Scan, v: Visit)
    requires Word(name) && Balanced(nodes.inter) && Balanced(nodes.intra)
    requires Fits(s, c, v) && Next(s, name, c, v) && Balanced(Current(s, c))
    ensures Balanced(Current(s, After(s, name, nodes, c, v)))
  {
    ShownIsBalanced(s, name, nodes, From(c), v);
    Around(c.done, s, c.p, v, s[v.start..v.end]);
    BalancedSwap(c.done + s[c.p..v.start], s[v.start..v.end], Shown(s, name, nodes, v), s[v.end..]);
  }

  lemma ShownIsBalanced(s: string, name: string, nodes: Nodes, i: nat, v: Visit)
    requires Word(name) && Balanced(nodes.inter) && Balanced(nodes.intra)
    requires TableRange(s, name, i) == Between(v.start, v.end)
    ensures Balanced(s[v.start..v.end]) && Balanced(Shown(s, name, nodes, v))
  {
    VisitedIsBalanced(s, name, i);
    FilledIsBalanced(name, NodeText(nodes, v.enclosing));
  }

  lemma Around(done: string, s: string, p: nat, v: Visit, x: string)
    requires p <= v.start <= v.end <= |s| && x == s[v.start..v.end]
    ensures done + s[p..] == done + s[p..v.start] + x + s[v.end..]
  {
    assert s[p..v.start] + x + s[v.end..] == s[p..];
  }

  // ----- reading a filled table back

  // A filled table is found where it was put, and it ends where its text ends.
  lemma FilledIsFound(a: string, name: string, text: string, b: string)
    requires Word(name) && Balanced(text)
    ensures TableRange(a + Filled(name, text) + b, name, |a|) == Between(|a| + 1, |a| + |Filled(name, text)| - 2)
  {
    var rest := Filled(name, text) + b;
    assert a + Filled(name, text) + b == a + rest;
    SameRest(a, rest, name, 0);
    FilledIsFirst(name, text, b);
  }

  lemma FilledIsFirst(name: string, text: string, b: string)
    requires Word(name) && Balanced(text)
    ensures TableRange(Filled(name, text) + b, name, 0) == Between(1, |Filled(name, text)| - 2)
  {
    var rest := Filled(name, text) + b;
    NoMention(rest, name, 0, 0);
    FilledBrace(name, text, b);
    TableRangeLater(rest, name, 0, 1);
    FirstTableIs(rest, name, 1, Some(1));
    FilledCloses(name, text, b);
  }

  lemma FilledCloses(name: string, text: string, b: string)
    requires Balanced(text)
    ensures Closing(Filled(name, text) + b, |name| + 3) == Some(|Filled(name, text)| - 3)
  {
    var head, x, tail := "\n" + name + ": ", " \n" + text + "\n ", " \n" + b;
    assert Filled(name, text) + b == head + Braced(x) + tail;
    PaddedIsBalanced(text);
    BracedCloses(head, x, tail);
    ClosesOnce(head + Braced(x) + tail, |head|, |head| + |x| + 1);
  }

  lemma FilledBrace(name: string, text: string, b: string)
    requires Word(name)
    ensures BraceOf(Filled(name, text) + b, name, 1) == Some(|name| + 3)
  {
    var rest, n := Filled(name, text) + b, |name|;
    assert rest[1..1 + n] == name;
    assert rest[n + 1] == ':' && rest[n + 2] == ' ' && rest[n + 3] == '{';
    assert AfterName(rest, n + 3, true) == Some(n + 3);
    assert AfterName(rest, n + 2, true) == Some(n + 3);
  }

  ghost predicate Blank(x: string) {
    forall i :: 0 <= i < |x| ==> Space(x[i])
  }

  // From p to q stands a table of that name which holds the text; all else there is white space.
  ghost predicate Lists(t: string, name: string, p: nat, q: nat, text: string) {
    p <= q <= |t| &&
    match TableRange(t, name, p)
    case Between(a, e) =>
      && e <= q && Blank(t[p..a]) && Blank(t[e..q]) && BraceOf(t, name, a).Some? && BraceOf(t, name, a).value + 1 < e
      && t[e - 1] == '}' && HoldsOnly(t[BraceOf(t, name, a).value + 1..e - 1], text)
    case _ => false
  }

  ghost predicate HoldsOnly(x: string, text: string) {
    exists u, v {:trigger Framed(u, text, v)} :: Blank(u) && Blank(v) && x == Framed(u, text, v)
  }

  function Framed(u: string, text: string, v: string): string {
    u + text + v
  }

  lemma FilledLists(a: string, name: string, text: string, b: string)
    requires Word(name) && Balanced(text)
    ensures Lists(a + Filled(name, text) + b, name, |a|, |a| + |Filled(name, text)|, text)
  {
    var t, f, n := a + Filled(name, text) + b, Filled(name, text), |name|;
    FilledIsFound(a, name, text, b);
    FilledBrace(name, text, b);
    BraceBehind(a, name, f + b);
    assert t == a + (f + b);
    FilledPieces(a, name, text, b);
    assert Framed(" \n", text, "\n ") == " \n" + text + "\n ";
  }

  lemma BraceBehind(a: string, name: string, rest: string)
    requires BraceOf(rest, name, 1).Some?
    ensures BraceOf(a + rest, name, |a| + 1) == Some(|a| + BraceOf(rest, name, 1).value)
  {
    assert (a + rest)[|a|..] == rest;
    BraceShift(a + rest, name, |a|, 1);
  }

  lemma FilledPieces(a: string, name: string, text: string, b: string)
    ensures var t, n, p := a + Filled(name, text) + b, |name|, |a|;
            var q := p + |Filled(name, text)|;
            && t[p..p + 1] == "\n" && t[q - 2..q] == " \n" && t[q - 3] == '}'
            && t[p + n + 4..q - 3] == " \n" + text + "\n "
  {
    var head, tail := "\n" + name + ": {", "} \n";
    assert Filled(name, text) == head + (" \n" + text + "\n ") + tail;
  }

  // ----- where the tables have been put

  // Where the gap before the k-th visit begins.
  function GapFrom(ends: seq<nat>, k: nat): nat
    requires k <= |ends|
  {
    if k == 0 then 0 else ends[k - 1]
  }

  // In the new text each visit has a place, and nothing between the places has changed.
  ghost predicate GapsKept(s: string, done: string, log: seq<Visit>, places: seq<nat>, ends: seq<nat>) {
    && |places| == |ends| == |log|
    && (forall k :: 0 <= k < |log| ==> GapKept(s, done, log, places, ends, k))
  }

  ghost predicate GapKept(s: string, done: string, log: seq<Visit>, places: seq<nat>, ends: seq<nat>, k: nat)
    requires |places| == |ends| == |log| && k < |log|
  {
    var from := if k == 0 then 0 else log[k - 1].end;
    && GapFrom(ends, k) <= places[k] <= ends[k] <= |done| && from <= log[k].start <= log[k].end <= |s|
    && done[GapFrom(ends, k)..places[k]] == s[from..log[k].start]
  }

  // A visit whose table was taken to be in "message" is unchanged; any other has a table in its place that
  // holds the nodes of other subsystems if it was taken to be in a sender, and else those of its own.
  ghost predicate Comes(s: string, t: string, name: string, nodes: Nodes, v: Visit, p: nat, q: nat) {
    && p <= q <= |t| && v.start <= v.end <= |s|
    && if v.enclosing == "message" then t[p..q] == s[v.start..v.end]
       else if v.enclosing in ["routingNetOutput", "binaryNetOutput", "subsystemOutput"]
       then Lists(t, name, p, q, nodes.inter)
       else Lists(t, name, p, q, nodes.intra)
  }

  ghost predicate Written(s: string, t: string, name: string, nodes: Nodes, log: seq<Visit>,
                          places: seq<nat>, ends: seq<nat>)
  {
    && GapsKept(s, t, log, places, ends)
    && (forall k :: 0 <= k < |log| ==> Comes(s, t, name, nodes, log[k], places[k], ends[k]))
    && GapFrom(ends, |log|) <= |t| && (log == [] || Last(log).end <= |s|)
    && t[GapFrom(ends, |log|)..] == s[if log == [] then 0 else Last(log).end..]
  }

  // The same while the work goes on, told by what has been put.
  ghost predicate PutSoFar(s: string, name: string, nodes: Nodes, log: seq<Visit>, c: Scan,
                           places: seq<nat>, ends: seq<nat>)
  {
    && |places| == |ends| == |log| && GapFrom(ends, |log|) == |c.done|
    && c.p == (if log == [] then 0 else Last(log).end)
    && forall k {:trigger PutAt(s, name, nodes, c.done, log, places, ends, k)} :: 0 <= k < |log| ==>
         PutAt(s, name, nodes, c.done, log, places, ends, k)
  }

  ghost predicate PutAt(s: string, name: string, nodes: Nodes, done: string, log: seq<Visit>,
                        places: seq<nat>, ends: seq<nat>, k: nat)
    requires |places| == |ends| == |log| && k < |log|
  {
    GapKept(s, done, log, places, ends, k) && done[places[k]..ends[k]] == Shown(s, name, nodes, log[k])
  }

  lemma {:induction false} WherePut(s: string, name: string, nodes: Nodes, log: seq<Visit>, c: Scan)
    returns (places: seq<nat>, ends: seq<nat>)
    requires Scanned(s, name, nodes, log) == Some(c)
    ensures PutSoFar(s, name, nodes, log, c, places, ends)
    decreases |log|
  {
    if log == [] {
      places, ends := [], [];
    } else {
      var b := BeforeLast(s, name, nodes, log, c);
      places, ends := WherePut(s, name, nodes, Init(log), b);
      OneMorePut(s, name, nodes, log, b, c, places, ends);
      places, ends := places + [|b.done| + (Last(log).start - b.p)], ends + [|c.done|];
    }
  }

  lemma OneMorePut(s: string, name: string, nodes: Nodes, log: seq<Visit>, b: Scan, c: Scan,
                   places: seq<nat>, ends: seq<nat>)
    requires log != [] && PutSoFar(s, name, nodes, Init(log), b, places, ends) && Fits(s, b, Last(log))
    requires c == After(s, name, nodes, b, Last(log))
    ensures PutSoFar(s, name, nodes, log, c, places + [|b.done| + (Last(log).start - b.p)], ends + [|c.done|])
  {
    var place := |b.done| + (Last(log).start - b.p);
    forall k | 0 <= k < |log| ensures PutAt(s, name, nodes, c.done, log, places + [place], ends + [|c.done|], k) {
      if k < |log| - 1 {
        assert PutAt(s, name, nodes, b.done, Init(log), places, ends, k);
        StaysPut(s, name, nodes, log, b, c, places, ends, place, k);
      } else {
        LastPut(s, name, nodes, log, b, c, places, ends);
      }
    }
  }

  lemma StaysPut(s: string, name: string, nodes: Nodes, log: seq<Visit>, b: Scan, c: Scan,
                 places: seq<nat>, ends: seq<nat>, place: nat, k: nat)
    requires log != [] && |places| == |ends| == |log| - 1 && k < |log| - 1 && Fits(s, b, Last(log))
    requires c == After(s, name, nodes, b, Last(log)) && PutAt(s, name, nodes, b.done, Init(log), places, ends, k)
    ensures PutAt(s, name, nodes, c.done, log, places + [place], ends + [|c.done|], k)
  {
    GapFromEarlier(ends, |c.done|, k);
    var more := s[b.p..Last(log).start] + Shown(s, name, nodes, Last(log));
    assert c.done == b.done + more;
    PrefixSlices(b.done, more, c.done, GapFrom(ends, k), places[k], ends[k]);
  }

  lemma LastPut(s: string, name: string, nodes: Nodes, log: seq<Visit>, b: Scan, c: Scan,
                places: seq<nat>, ends: seq<nat>)
    requires log != [] && |places| == |ends| == |log| - 1 && Fits(s, b, Last(log))
    requires c == After(s, name, nodes, b, Last(log)) && GapFrom(ends, |log| - 1) == |b.done|
    requires b.p == if Init(log) == [] then 0 else Last(Init(log)).end
    ensures var place := |b.done| + (Last(log).start - b.p);
            PutAt(s, name, nodes, c.done, log, places + [place], ends + [|c.done|], |log| - 1)
  {
    GapFromEarlier(ends, |c.done|, |log| - 1);
    MiddleSlices(b.done, s[b.p..Last(log).start], Shown(s, name, nodes, Last(log)));
  }

  lemma MiddleSlices(a: string, b: string, c: string)
    ensures var all := a + b + c; all[|a|..|a| + |b|] == b && all[|a| + |b|..|all|] == c
  {
  }

  lemma GapFromEarlier(ends: seq<nat>, end: nat, k: nat)
    requires k <= |ends|
    ensures GapFrom(ends + [end], k) == GapFrom(ends, k)
  {
  }

  lemma PrefixSlices(done: string, more: string, all: string, i: nat, j: nat, k: nat)
    requires i <= j <= k <= |done| && all == done + more
    ensures all[i..j] == done[i..j] && all[j..k] == done[j..k]
  {
  }

  // In the text as it is then, every visit has come to what it should.
  lemma WhereWritten(s: string, name: string, nodes: Nodes, log: seq<Visit>, c: Scan)
    returns (places: seq<nat>, ends: seq<nat>)
    requires Word(name) && Balanced(nodes.inter) && Balanced(nodes.intra) && Scanned(s, name, nodes, log) == Some(c)
    ensures Written(s, Current(s, c), name, nodes, log, places, ends)
  {
    places, ends := WherePut(s, name, nodes, log, c);
    var t := Current(s, c);
    forall k | 0 <= k < |log|
      ensures GapKept(s, t, log, places, ends, k) && Comes(s, t, name, nodes, log[k], places[k], ends[k])
    {
      assert PutAt(s, name, nodes, c.done, log, places, ends, k);
      PrefixSlices(c.done, s[c.p..], t, GapFrom(ends, k), places[k], ends[k]);
      PutComes(s, t, name, nodes, log[k], places[k], ends[k]);
    }
  }

  lemma PutComes(s: string, t: string, name: string, nodes: Nodes, v: Visit, p: nat, q: nat)
    requires Word(name) && Balanced(nodes.inter) && Balanced(nodes.intra)
    requires p <= q <= |t| && v.start <= v.end <= |s| && t[p..q] == Shown(s, name, nodes, v)
    ensures Comes(s, t, name, nodes, v, p, q)
  {
    assert t == t[..p] + t[p..q] + t[q..];
    if !Kept(v) { FilledLists(t[..p], name, NodeText(nodes, v.enclosing), t[q..]); }
  }

  class ProcessDocument {
    var fhiclUsed: string

    constructor (text: string)
      ensures fhiclUsed == text
    {
      fhiclUsed := text;
    }

    // Every `name` table found is replaced, but for those taken to be in a table "message".
    method FillTables(name: string, nodes: Nodes)
      returns (ghost log: seq<Visit>, error: Option<FhiclError>, ghost places: seq<nat>, ghost ends: seq<nat>)
      requires Word(name) && Quiet(name, nodes)
      modifies this
      ensures Scanned(old(fhiclUsed), name, nodes, log).Some?
      ensures fhiclUsed == Current(old(fhiclUsed), Scanned(old(fhiclUsed), name, nodes, log).value)
      ensures Stops(old(fhiclUsed), name, Scanned(old(fhiclUsed), name, nodes, log).value, error)
      ensures Balanced(nodes.inter) && Balanced(nodes.intra) ==>
        Written(old(fhiclUsed), fhiclUsed, name, nodes, log, places, ends)
    {
      ghost var s, c := fhiclUsed, Scan("", 0, 0);
      log, error := [], None;
      var searchStart := 0;
      assert "" + s[0..] == s;
      while true
        invariant Going(s, name, nodes, log, c)
        invariant fhiclUsed == Current(s, c) && searchStart == c.searchStart
        decreases |s| - c.p
      {
        NextFound(s, name, c);
        var range := FindTable(fhiclUsed, name, searchStart);
        if range == Unclosed {
          error := Some(UnclosedTable);
          break;
        }
        var enclosing := EnclosingName(fhiclUsed, name, searchStart);
        if enclosing == None {
          error := Some(NoColon);
          break;
        }
        if range == Nowhere {
          break;
        }
        ghost var v := Turn(s, name, nodes, log, c, range, enclosing.value);
        ghost var next := After(s, name, nodes, c, v);
        TextAfterTurn(s, name, nodes, c, v, range, enclosing.value);
        if enclosing.value != "message" {
          fhiclUsed := Replace(fhiclUsed, range.start, range.end, Filled(name, NodeText(nodes, enclosing.value)));
        }
        searchStart := range.end;
        log, c := log + [v], next;
      }
      places, ends := [], [];
      if Balanced(nodes.inter) && Balanced(nodes.intra) {
        places, ends := WhereWritten(s, name, nodes, log, c);
      }
    }
  }
}
