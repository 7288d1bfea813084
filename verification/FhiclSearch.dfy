/** Finding tables in FHiCL text: `name : { ... }`, its matching brace, and the table around it.
    Braces are counted wherever they stand, as the program does; keys are searched literally. */
module FhiclSearch {
  import opened Wrappers
  import opened Strings

  predicate WordChar(c: char) {
    'a' <= c <= 'z' || 'A' <= c <= 'Z' || '0' <= c <= '9' || c == '_'
  }

  predicate Word(s: string) {
    s != "" && forall i :: 0 <= i < |s| ==> WordChar(s[i])
  }

  // ----- braces

  function Weight(c: char): int {
    if c == '{' then 1 else if c == '}' then -1 else 0
  }

  // Opening braces minus closing braces.
  function Net(s: string): int {
    if s == "" then 0 else Net(s[..|s| - 1]) + Weight(s[|s| - 1])
  }

  lemma {:induction false} NetJoin(a: string, b: string)
    ensures Net(a + b) == Net(a) + Net(b)
    decreases |b|
  {
    if b == "" { assert a + b == a; }
    else {
      var c := b[..|b| - 1];
      assert (a + b)[..|a + b| - 1] == a + c;
      NetJoin(a, c);
    }
  }

  lemma NetSplit(s: string, a: nat, b: nat, c: nat)
    requires a <= b <= c <= |s|
    ensures Net(s[a..c]) == Net(s[a..b]) + Net(s[b..c])
  {
    var x, y := s[a..b], s[b..c];
    assert s[a..c] == x + y;
    NetJoin(x, y);
  }

  ghost predicate Balanced(s: string) {
    Net(s) == 0 && forall k :: 0 <= k <= |s| ==> Net(s[..k]) >= 0
  }

  // The brace at e closes the brace at b.
  ghost predicate Closes(s: string, b: nat, e: nat) {
    b < e < |s| && Net(s[b..e + 1]) == 0 && forall k :: b < k <= e ==> Net(s[b..k]) > 0
  }

  function ClosingFrom(s: string, e: nat, depth: int): (r: Option<nat>)
    requires e <= |s|
    decreases |s| - e
  {
    if e == |s| then None
    else
      var d := depth + Weight(s[e]);
      if d == 0 then Some(e) else ClosingFrom(s, e + 1, d)
  }

  function Closing(s: string, b: nat): Option<nat>
    requires b < |s|
  {
    ClosingFrom(s, b + 1, 1)
  }

  lemma NetStep(s: string, b: nat, e: nat)
    requires b <= e < |s|
    ensures Net(s[b..e + 1]) == Net(s[b..e]) + Weight(s[e])
  {
    assert s[b..e + 1][..e - b] == s[b..e];
  }

  lemma {:induction false} ClosingFromCloses(s: string, b: nat, e: nat)
    requires b < e <= |s| && forall k :: b < k <= e ==> Net(s[b..k]) > 0
    ensures match ClosingFrom(s, e, Net(s[b..e]))
            case Some(x) => Closes(s, b, x)
            case None => forall k :: b < k <= |s| ==> Net(s[b..k]) > 0
    decreases |s| - e
  {
    if e < |s| {
      NetStep(s, b, e);
      if Net(s[b..e + 1]) != 0 { ClosingFromCloses(s, b, e + 1); }
    }
  }

  // The search finds the matching brace if there is one.
  lemma ClosingCloses(s: string, b: nat)
    requires b < |s| && s[b] == '{'
    ensures match Closing(s, b)
            case Some(e) => Closes(s, b, e)
            case None => forall k :: b < k <= |s| ==> Net(s[b..k]) > 0
  {
    NetStep(s, b, b);
    assert s[b..b] == "";
    ClosingFromCloses(s, b, b + 1);
  }

  // In balanced text every brace is closed.
  lemma BalancedCloses(s: string, b: nat)
    requires Balanced(s) && b < |s| && s[b] == '{'
    ensures Closing(s, b).Some? && Closes(s, b, Closing(s, b).value)
  {
    ClosingCloses(s, b);
    if Closing(s, b) == None {
      assert s == s[..b] + s[b..|s|] && s[..b] == s[..b];
      assert Net(s[..b]) >= 0 && Net(s[b..|s|]) > 0;
      NetJoin(s[..b], s[b..|s|]);
    }
  }

  // ----- tables

  // The brace that follows the name of a table: white space, a colon, white space, the brace.
  function AfterName(s: string, i: nat, colon: bool): (r: Option<nat>)
    ensures r.Some? ==> i <= r.value < |s| && s[r.value] == '{' && (!colon ==> i < r.value)
    decreases |s| - i
  {
    if i >= |s| then None
    else if Space(s[i]) then AfterName(s, i + 1, colon)
    else if colon then (if s[i] == '{' then Some(i) else None)
    else if s[i] == ':' then AfterName(s, i + 1, true) else None
  }

  // The opening brace of a table `name : {` that starts at i.
  function BraceOf(s: string, name: string, i: nat): (r: Option<nat>)
    ensures r.Some? ==> i + |name| < r.value < |s| && s[r.value] == '{'
  {
    if Occurs(s, name, i) then AfterName(s, i + |name|, false) else None
  }

  ghost predicate SpaceBetween(s: string, i: nat, j: nat) {
    i <= j <= |s| && forall k :: i <= k < j ==> Space(s[k])
  }

  // A colon at c and a brace at b, with only white space before and between them from i on.
  ghost predicate ColonAndBrace(s: string, i: nat, c: nat, b: nat) {
    && i <= c < b < |s| && s[c] == ':' && s[b] == '{'
    && SpaceBetween(s, i, c) && SpaceBetween(s, c + 1, b)
  }

  ghost predicate BraceAfter(s: string, i: nat, b: nat) {
    exists c: nat :: ColonAndBrace(s, i, c, b)
  }

  // That is what a table is: its name, and the brace behind it.
  lemma TableSpelled(s: string, name: string, i: nat, b: nat)
    ensures BraceOf(s, name, i) == Some(b) <==>
      i + |name| <= |s| && s[i..i + |name|] == name && BraceAfter(s, i + |name|, b)
  {
    if i + |name| <= |s| { BraceSpelled(s, i + |name|, b); }
  }

  lemma {:induction false} BraceSpelled(s: string, i: nat, b: nat)
    requires i <= |s|
    ensures AfterName(s, i, false) == Some(b) <==> BraceAfter(s, i, b)
    decreases |s| - i
  {
    if i < |s| && Space(s[i]) {
      BraceSpelled(s, i + 1, b);
      ColonLater(s, i, b);
    } else {
      if i < |s| { AfterColonSpelled(s, i + 1, b); }
      ColonHere(s, i, b);
    }
  }

  lemma ColonLater(s: string, i: nat, b: nat)
    requires i < |s| && Space(s[i])
    ensures BraceAfter(s, i, b) <==> BraceAfter(s, i + 1, b)
  {
    if c: nat :| ColonAndBrace(s, i, c, b) { assert ColonAndBrace(s, i + 1, c, b); }
    var j := i + 1;
    if c: nat :| ColonAndBrace(s, j, c, b) { assert ColonAndBrace(s, i, c, b); }
  }

  lemma ColonHere(s: string, i: nat, b: nat)
    requires i <= |s| && (i < |s| ==> !Space(s[i]))
    ensures BraceAfter(s, i, b) <==> i < b < |s| && s[i] == ':' && s[b] == '{' && SpaceBetween(s, i + 1, b)
  {
    if c: nat :| ColonAndBrace(s, i, c, b) { assert c == i; }
    if i < b < |s| && s[i] == ':' && s[b] == '{' && SpaceBetween(s, i + 1, b) { assert ColonAndBrace(s, i, i, b); }
  }

  lemma {:induction false} AfterColonSpelled(s: string, i: nat, b: nat)
    requires i <= |s|
    ensures AfterName(s, i, true) == Some(b) <==> b < |s| && s[b] == '{' && SpaceBetween(s, i, b)
    decreases |s| - i
  {
    if i < |s| && Space(s[i]) { AfterColonSpelled(s, i + 1, b); }
  }

  predicate TableAt(s: string, name: string, i: nat) {
    BraceOf(s, name, i).Some?
  }

  ghost predicate IsFirst(s: string, name: string, i: nat, r: Option<nat>) {
    match r
    case Some(a) => i <= a && TableAt(s, name, a) && forall j :: i <= j < a ==> !TableAt(s, name, j)
    case None => forall j :: i <= j ==> !TableAt(s, name, j)
  }

  function FirstTable(s: string, name: string, i: nat): (r: Option<nat>)
    ensures r.Some? ==> i <= r.value && TableAt(s, name, r.value)
    decreases |s| - i
  {
    if TableAt(s, name, i) then Some(i)
    else if i >= |s| then None
    else FirstTable(s, name, i + 1)
  }

  lemma {:induction false} FirstTableIsFirst(s: string, name: string, i: nat)
    ensures IsFirst(s, name, i, FirstTable(s, name, i))
    decreases |s| - i
  {
    if i < |s| { FirstTableIsFirst(s, name, i + 1); }
  }

  datatype Range = Nowhere | Between(start: nat, end: nat) | Unclosed

  // Where the name of a table starts, and just past its closing brace.
  function RangeOf(s: string, name: string, a: nat): (r: Range)
    requires TableAt(s, name, a)
    ensures r.Between? ==> r.start == a && a + |name| + 2 < r.end <= |s|
    ensures r != Nowhere
  {
    var b := BraceOf(s, name, a).value;
    match Closing(s, b)
    case None => Unclosed
    case Some(e) => ClosingAfter(s, b + 1, 1); Between(a, e + 1)
  }

  // The first table from i on.
  function TableRange(s: string, name: string, i: nat): (r: Range)
    ensures r.Between? ==> i <= r.start && r.start + |name| + 2 < r.end <= |s|
  {
    match FirstTable(s, name, i)
    case None => Nowhere
    case Some(a) => RangeOf(s, name, a)
  }

  // It is a table and no table starts before it; nothing is found if and only if there is none.
  lemma TableRangeIsFirst(s: string, name: string, i: nat)
    ensures match TableRange(s, name, i)
            case Between(a, _) => IsFirst(s, name, i, Some(a))
            case Nowhere => IsFirst(s, name, i, None)
            case Unclosed => exists a :: IsFirst(s, name, i, Some(a)) && RangeOf(s, name, a) == Unclosed
  {
    var r := FirstTable(s, name, i);
    FirstTableIsFirst(s, name, i);
    assert r.Some? ==> IsFirst(s, name, i, Some(r.value));
  }

  lemma {:induction false} ClosingAfter(s: string, e: nat, depth: int)
    requires e <= |s|
    ensures ClosingFrom(s, e, depth).Some? ==> e <= ClosingFrom(s, e, depth).value < |s|
    decreases |s| - e
  {
    if e < |s| { ClosingAfter(s, e + 1, depth + Weight(s[e])); }
  }

  // A table that is found is closed by its own brace.
  lemma RangeIsMatched(s: string, name: string, i: nat)
    requires TableRange(s, name, i).Between?
    ensures var r := TableRange(s, name, i); Closes(s, BraceOf(s, name, r.start).value, r.end - 1)
  {
    ClosingCloses(s, BraceOf(s, name, TableRange(s, name, i).start).value);
  }

  lemma BalancedHasRange(s: string, name: string, i: nat)
    requires Balanced(s)
    ensures TableRange(s, name, i) != Unclosed
  {
    match FirstTable(s, name, i)
    case None =>
    case Some(a) => BalancedCloses(s, BraceOf(s, name, a).value);
  }

  // ----- the search on a suffix

  function Moved(r: Option<nat>, k: nat): Option<nat> {
    match r case None => None case Some(i) => Some(k + i)
  }

  lemma {:induction false} AfterNameShift(s: string, k: nat, i: nat, colon: bool)
    requires k <= |s|
    ensures AfterName(s, k + i, colon) == Moved(AfterName(s[k..], i, colon), k)
    decreases |s| - i
  {
    if k + i < |s| {
      assert s[k..][i] == s[k + i];
      AfterNameShift(s, k, i + 1, colon);
      AfterNameShift(s, k, i + 1, true);
    }
  }

  lemma OccursShift(s: string, piece: string, k: nat, i: nat)
    requires k <= |s|
    ensures Occurs(s[k..], piece, i) == Occurs(s, piece, k + i)
  {
    if k + i + |piece| <= |s| { assert s[k..][i..i + |piece|] == s[k + i..k + i + |piece|]; }
  }

  lemma BraceShift(s: string, name: string, k: nat, i: nat)
    requires k <= |s|
    ensures BraceOf(s, name, k + i) == Moved(BraceOf(s[k..], name, i), k)
  {
    OccursShift(s, name, k, i);
    AfterNameShift(s, k, i + |name|, false);
  }

  lemma TableAtShift(s: string, name: string, k: nat, i: nat)
    requires k <= |s|
    ensures TableAt(s, name, k + i) == TableAt(s[k..], name, i)
  {
    BraceShift(s, name, k, i);
  }

  lemma FirstTableShift(s: string, name: string, k: nat, i: nat)
    requires k <= |s|
    ensures FirstTable(s, name, k + i) == Moved(FirstTable(s[k..], name, i), k)
  {
    FirstTableIsFirst(s[k..], name, i);
    FirstShift(s, s[k..], name, k, i, FirstTable(s[k..], name, i));
    FirstTableIs(s, name, k + i, Moved(FirstTable(s[k..], name, i), k));
  }

  lemma FirstShift(s: string, t: string, name: string, k: nat, i: nat, r: Option<nat>)
    requires k <= |s| && t == s[k..] && IsFirst(t, name, i, r)
    ensures IsFirst(s, name, k + i, Moved(r, k))
  {
    forall j: nat | k + i <= j ensures TableAt(s, name, j) == TableAt(t, name, j - k) {
      TableAtShift(s, name, k, j - k);
    }
  }

  lemma FirstTableIs(s: string, name: string, i: nat, r: Option<nat>)
    requires IsFirst(s, name, i, r)
    ensures FirstTable(s, name, i) == r
  {
    FirstTableIsFirst(s, name, i);
  }

  lemma {:induction false} ClosingShift(s: string, k: nat, e: nat, depth: int)
    requires k + e <= |s|
    ensures ClosingFrom(s, k + e, depth) == Moved(ClosingFrom(s[k..], e, depth), k)
    decreases |s| - e
  {
    if k + e < |s| {
      assert s[k..][e] == s[k + e];
      ClosingShift(s, k, e + 1, depth + Weight(s[k + e]));
    }
  }

  function MovedRange(r: Range, k: nat): Range {
    match r
    case Between(a, e) => Between(k + a, k + e)
    case _ => r
  }

  lemma RangeOfShift(s: string, name: string, k: nat, a: nat)
    requires k <= |s| && TableAt(s[k..], name, a)
    ensures TableAt(s, name, k + a) && RangeOf(s, name, k + a) == MovedRange(RangeOf(s[k..], name, a), k)
  {
    BraceShift(s, name, k, a);
    ClosingShift(s, k, BraceOf(s[k..], name, a).value + 1, 1);
  }

  lemma TableRangeShift(s: string, name: string, k: nat, i: nat)
    requires k <= |s|
    ensures TableRange(s, name, k + i) == MovedRange(TableRange(s[k..], name, i), k)
  {
    FirstTableShift(s, name, k, i);
    var first := FirstTable(s[k..], name, i);
    if first.Some? { RangeOfShift(s, name, k, first.value); }
  }

  // Nothing changes when the search starts later but before the first table.
  lemma {:induction false} TableRangeLater(s: string, name: string, i: nat, j: nat)
    requires i <= j && forall k :: i <= k < j ==> !TableAt(s, name, k)
    ensures TableRange(s, name, i) == TableRange(s, name, j)
    decreases j - i
  {
    if i < j {
      TableRangeLater(s, name, i + 1, j);
      if i >= |s| { assert FirstTable(s, name, i) == FirstTable(s, name, i + 1) == None; }
    }
  }

  // table_range: by way of the occurrences of the name and of suffixes of the text.
  method FindTable(s: string, name: string, start: nat) returns (r: Range)
    requires Word(name)
    ensures r == TableRange(s, name, start)
    decreases |s|
  {
    var found := Find(s, name, start);
    FromOccurrence(s, name, start);
    if found.None? {
      return Nowhere;
    }
    var loc := found.value;
    var suffix := s[loc..];
    if !TableAt(suffix, name, 0) {
      var rest := FindTable(s[loc + 1..], name, 0);
      FromSuffix(s, name, loc);
      return MovedRange(rest, loc + 1);
    }
    r := FindHere(s, name, loc);
  }

  method FindHere(s: string, name: string, loc: nat) returns (r: Range)
    requires loc < |s| && Word(name) && TableAt(s[loc..], name, 0)
    ensures r == TableRange(s, name, loc)
  {
    TableHere(s, name, loc);
    var open := Find(s[loc..], "{", 0).value;
    var close := CloseBrace(s, loc + open);
    r := if close == None then Unclosed else Between(loc, close.value + 1);
  }

  lemma FromOccurrence(s: string, name: string, start: nat)
    requires Word(name)
    ensures match Find(s, name, start)
            case Some(loc) => TableRange(s, name, start) == TableRange(s, name, loc)
            case None => TableRange(s, name, start) == Nowhere
  {
    match Find(s, name, start)
    case Some(loc) => TableRangeLater(s, name, start, loc);
    case None => FirstTableIs(s, name, start, None);
  }

  lemma FromSuffix(s: string, name: string, loc: nat)
    requires loc < |s| && !TableAt(s[loc..], name, 0)
    ensures TableRange(s, name, loc) == MovedRange(TableRange(s[loc + 1..], name, 0), loc + 1)
  {
    TableAtShift(s, name, loc, 0);
    TableRangeLater(s, name, loc, loc + 1);
    TableRangeShift(s, name, loc + 1, 0);
  }

  lemma TableHere(s: string, name: string, loc: nat)
    requires loc < |s| && Word(name) && TableAt(s[loc..], name, 0)
    ensures TableAt(s, name, loc) && TableRange(s, name, loc) == RangeOf(s, name, loc)
    ensures Find(s[loc..], "{", 0).Some? && BraceOf(s, name, loc) == Some(loc + Find(s[loc..], "{", 0).value)
  {
    BraceShift(s, name, loc, 0);
    FirstTableIs(s, name, loc, Some(loc));
    FirstBrace(s[loc..], name);
  }

  method CloseBrace(s: string, b: nat) returns (r: Option<nat>)
    requires b < |s|
    ensures r == Closing(s, b)
  {
    var needed, i := 1, b + 1;
    while i < |s|
      invariant b + 1 <= i <= |s|
      invariant ClosingFrom(s, i, needed) == Closing(s, b)
    {
      if s[i] == '{' {
        needed := needed + 1;
      } else if s[i] == '}' {
        needed := needed - 1;
      }
      if needed == 0 {
        return Some(i);
      }
      i := i + 1;
    }
    r := None;
  }

  // The first brace of the text is the one of the table at its start.
  lemma FirstBrace(s: string, name: string)
    requires Word(name) && TableAt(s, name, 0)
    ensures Find(s, "{", 0) == BraceOf(s, name, 0)
  {
    var b := BraceOf(s, name, 0).value;
    NoBraceBetween(s, |name|, false);
    assert s[b..b + 1] == "{";
    forall j | 0 <= j < b ensures !Occurs(s, "{", j) {
      if j < |name| { assert s[j] == s[0..|name|][j]; }
      assert s[j..j + 1][0] == s[j] != '{';
    }
    FoundFirst(s, "{", 0, b);
  }

  lemma {:induction false} NoBraceBetween(s: string, i: nat, colon: bool)
    requires AfterName(s, i, colon).Some?
    ensures forall j :: i <= j < AfterName(s, i, colon).value ==> s[j] == ':' || Space(s[j])
    ensures colon ==> forall j :: i <= j < AfterName(s, i, colon).value ==> Space(s[j])
    decreases |s| - i
  {
    if Space(s[i]) { NoBraceBetween(s, i + 1, colon); }
    else if !colon { NoBraceBetween(s, i + 1, true); }
  }

  // ----- the table around a place

  // The last opening brace in s[i..loc) that is still open at loc, when s[k..loc) has been examined.
  function OpenBefore(s: string, i: nat, k: nat, net: int): (r: Option<nat>)
    requires i <= k <= |s|
    ensures r.Some? ==> i <= r.value < k
    decreases k
  {
    if k == i then None
    else
      var n := net + Weight(s[k - 1]);
      if n == 1 && s[k - 1] == '{' then Some(k - 1) else OpenBefore(s, i, k - 1, n)
  }

  // Where the innermost brace stands that is open at loc.
  ghost predicate InnermostOpen(s: string, i: nat, loc: nat, o: nat) {
    && i <= o < loc <= |s| && s[o] == '{' && Net(s[o..loc]) == 1
    && forall k :: o < k <= loc ==> Net(s[k..loc]) <= 0
  }

  ghost predicate NoneOpen(s: string, i: nat, loc: nat) {
    i <= loc <= |s| && forall k :: i <= k <= loc ==> Net(s[k..loc]) <= 0
  }

  lemma NetStepLeft(s: string, k: nat, loc: nat)
    requires 0 < k <= loc <= |s|
    ensures Net(s[k - 1..loc]) == Weight(s[k - 1]) + Net(s[k..loc])
  {
    assert s[k - 1..loc] == [s[k - 1]] + s[k..loc];
    NetJoin([s[k - 1]], s[k..loc]);
    assert [s[k - 1]][..0] == "";
  }

  lemma {:induction false} OpenBeforeIsInnermost(s: string, i: nat, k: nat, loc: nat)
    requires i <= k <= loc <= |s| && forall x :: k <= x <= loc ==> Net(s[x..loc]) <= 0
    ensures match OpenBefore(s, i, k, Net(s[k..loc]))
            case Some(o) => InnermostOpen(s, i, loc, o)
            case None => NoneOpen(s, i, loc)
    decreases k
  {
    if i < k {
      NetStepLeft(s, k, loc);
      if Net(s[k - 1..loc]) <= 0 { OpenBeforeIsInnermost(s, i, k - 1, loc); }
    }
  }

  // The first brace of either kind from i on.
  function AnyBrace(s: string, i: nat): (r: Option<nat>)
    ensures r.Some?
            ==> i <= r.value < |s| && Weight(s[r.value]) != 0 && forall j :: i <= j < r.value ==> Weight(s[j]) == 0
    ensures r.None? ==> forall j :: i <= j < |s| ==> Weight(s[j]) == 0
    decreases |s| - i
  {
    if i >= |s| then None
    else if Weight(s[i]) != 0 then Some(i)
    else AnyBrace(s, i + 1)
  }

  // The program counts an opening brace like a closing one, so the search to the right ends at the
  // first brace of either kind.
  function Enclosing(s: string, piece: string, i: nat): (r: Option<(nat, nat)>)
    ensures r.Some? ==> i <= r.value.0 < r.value.1 <= |s|
  {
    match Find(s, piece, i)
    case None => None
    case Some(loc) =>
      match OpenBefore(s, i, loc, 0)
      case None => None
      case Some(o) =>
        match AnyBrace(s, loc)
        case None => None
        case Some(e) => Some((o, e + 1))
  }

  // enclosing_table_range
  method FindEnclosing(s: string, piece: string, start: nat) returns (r: Option<(nat, nat)>)
    ensures r == Enclosing(s, piece, start)
  {
    var found := Find(s, piece, start);
    if found.None? {
      return None;
    }
    var loc := found.value;
    var opening, closing, k := 0, 0, loc;
    var open: Option<nat> := None;
    while k > start && open == None
      invariant start <= k <= loc
      invariant if open == None
                then OpenBefore(s, start, loc, 0) == OpenBefore(s, start, k, opening - closing) && opening <= closing
                else open == OpenBefore(s, start, loc, 0)
      decreases k
    {
      k := k - 1;
      if s[k] == '{' {
        opening := opening + 1;
      } else if s[k] == '}' {
        closing := closing + 1;
      }
      if opening - closing == 1 {
        open := Some(k);
      }
    }
    if open == None {
      return None;
    }
    opening, closing, k := 0, 0, loc;
    while k < |s|
      invariant loc <= k && opening == closing == 0
      invariant AnyBrace(s, loc) == AnyBrace(s, k)
    {
      if s[k] == '}' {
        closing := closing + 1;
      } else if s[k] == '{' {
        opening := opening - 1;
      }
      if closing - opening == 1 {
        return Some((open.value, k + 1));
      }
      k := k + 1;
    }
    r := None;
  }

  // What the search to the left means.
  lemma EnclosingOpens(s: string, piece: string, i: nat)
    requires Find(s, piece, i).Some?
    ensures var loc := Find(s, piece, i).value;
            match Enclosing(s, piece, i)
            case Some((o, e)) => InnermostOpen(s, i, loc, o)
            case None => NoneOpen(s, i, loc) || (forall j :: loc <= j < |s| ==> Weight(s[j]) == 0)
  {
    var loc := Find(s, piece, i).value;
    assert s[loc..loc] == "";
    OpenBeforeIsInnermost(s, i, loc, loc);
  }

  // In balanced text the search fails only if no brace is open.
  lemma BalancedEncloses(s: string, piece: string, i: nat)
    requires Balanced(s) && Find(s, piece, i).Some?
    ensures Enclosing(s, piece, i) == None <==> NoneOpen(s, i, Find(s, piece, i).value)
  {
    var loc := Find(s, piece, i).value;
    assert s[loc..loc] == "";
    OpenBeforeIsInnermost(s, i, loc, loc);
    var open := OpenBefore(s, i, loc, 0);
    if open.Some? {
      assert Net(s[open.value..loc]) == 1;
      BraceFollows(s, open.value, loc);
    }
  }

  // After an open brace, balanced text has another brace.
  lemma BraceFollows(s: string, o: nat, loc: nat)
    requires Balanced(s) && o <= loc <= |s| && Net(s[o..loc]) == 1
    ensures AnyBrace(s, loc).Some?
  {
    if AnyBrace(s, loc) == None {
      var n := |s|;
      NoWeight(s[loc..n]);
      assert s[0..n] == s && s[0..o] == s[..o] && Net(s[..o]) >= 0;
      NetSplit(s, 0, o, n);
      NetSplit(s, o, loc, n);
    }
  }

  lemma {:induction false} NoWeight(s: string)
    requires forall j :: 0 <= j < |s| ==> Weight(s[j]) == 0
    ensures Net(s) == 0
  {
    if s != "" { NoWeight(s[..|s| - 1]); }
  }

  // From loc on, a closing brace comes before any opening one.
  ghost predicate ClosesFirst(s: string, loc: nat) {
    exists e :: loc <= e < |s| && s[e] == '}' && forall j :: loc <= j < e ==> Weight(s[j]) == 0
  }

  // The search returns the whole table around the piece exactly if one is open there and is closed
  // before another one opens; and nothing exactly if none is open or no brace follows.
  lemma WholeTable(s: string, piece: string, i: nat)
    requires Find(s, piece, i).Some?
    ensures var loc := Find(s, piece, i).value;
            (match Enclosing(s, piece, i) case Some((o, e)) => Closes(s, o, e - 1) case None => false)
            <==> !NoneOpen(s, i, loc) && ClosesFirst(s, loc)
    ensures var loc := Find(s, piece, i).value;
            Enclosing(s, piece, i) == None <==> NoneOpen(s, i, loc) || forall j :: loc <= j < |s| ==> Weight(s[j]) == 0
  {
    var loc := Find(s, piece, i).value;
    EnclosingOpens(s, piece, i);
    FirstAnyBrace(s, loc);
    match Enclosing(s, piece, i)
    case None =>
    case Some((o, e)) =>
      assert Net(s[o..loc]) > 0;
      OneBraceOn(s, o, loc, e - 1);
  }

  // The first brace is a closing one exactly if a closing brace comes first.
  lemma FirstAnyBrace(s: string, loc: nat)
    ensures ClosesFirst(s, loc) <==> AnyBrace(s, loc).Some? && s[AnyBrace(s, loc).value] == '}'
  {
    if ClosesFirst(s, loc) {
      var e :| loc <= e < |s| && s[e] == '}' && forall j :: loc <= j < e ==> Weight(s[j]) == 0;
      assert Weight(s[e]) != 0;
    }
  }

  // A table that opens behind the piece cuts the range short.
  lemma RangeCutShort()
    ensures var s := "a:{ x b:{} }";
            Balanced(s) && Enclosing(s, "x", 0) == Some((2, 9)) && Closes(s, 2, 11)
  {
    var s := "a:{ x b:{} }";
    assert s[4] == 'x' && s[8] == '{' && s[9] == '}' && s[11] == '}' && s[2] == '{';
    assert s[4..5] == [s[4]] == "x";
    forall j | 0 <= j < 4 ensures !Occurs(s, "x", j) { assert s[j..j + 1][0] == s[j]; }
    FoundFirst(s, "x", 0, 4);
    assert OpenBefore(s, 0, 3, 0) == Some(2) && OpenBefore(s, 0, 4, 0) == Some(2);
    assert AnyBrace(s, 8) == Some(8);
    assert AnyBrace(s, 6) == Some(8);
    assert AnyBrace(s, 4) == Some(8);
    NetsOfExample(s);
  }

  lemma NetsOfExample(s: string)
    requires s == "a:{ x b:{} }"
    ensures Balanced(s) && Closes(s, 2, 11)
  {
    forall k | 0 <= k <= 12
      ensures Net(s[..k])
              == (if k <= 2 then 0 else if k <= 8 then 1 else if k == 9 then 2 else if k <= 11 then 1 else 0)
      ensures 2 <= k ==> Net(s[2..k]) == Net(s[..k])
    {
      NetUpTo(s, k);
      if 2 <= k { NetSplit(s, 0, 2, k); NetUpTo(s, 2); assert s[0..k] == s[..k] && s[0..2] == s[..2]; }
    }
    assert s[..12] == s;
  }

  lemma {:induction false} NetUpTo(s: string, k: nat)
    requires s == "a:{ x b:{} }" && k <= 12
    ensures Net(s[..k]) == (if k <= 2 then 0 else if k <= 8 then 1 else if k == 9 then 2 else if k <= 11 then 1 else 0)
  {
    if k > 0 {
      NetUpTo(s, k - 1);
      assert s[..k][..k - 1] == s[..k - 1];
    }
  }

  lemma OneBraceOn(s: string, o: nat, loc: nat, e: nat)
    requires o < loc <= e < |s| && Net(s[o..loc]) == 1 && (forall k :: o < k <= loc ==> Net(s[k..loc]) <= 0)
    requires (forall j :: loc <= j < e ==> Weight(s[j]) == 0) && Weight(s[e]) != 0
    ensures Closes(s, o, e) <==> s[e] == '}'
  {
    NetSplit(s, o, loc, e);
    NoWeight(s[loc..e]);
    NetStep(s, o, e);
    forall k | o < k <= e ensures Net(s[o..k]) > 0 {
      if k <= loc {
        NetSplit(s, o, k, loc);
      } else {
        NetSplit(s, o, loc, k);
        NoWeight(s[loc..k]);
      }
    }
  }

  // ----- the name of the table around a place

  // s.rindex(":", 0, end)
  function LastColon(s: string, end: nat): (r: Option<nat>)
    requires end <= |s|
    ensures r.Some? ==> r.value < end && s[r.value] == ':' && forall j :: r.value < j < end ==> s[j] != ':'
    ensures r.None? ==> forall j :: 0 <= j < end ==> s[j] != ':'
  {
    if end == 0 then None
    else if s[end - 1] == ':' then Some(end - 1)
    else LastColon(s, end - 1)
  }

  function BackOverBlanks(s: string, c: nat): (r: nat)
    requires c <= |s|
    ensures r <= c && (r > 0 ==> s[r - 1] != ' ') && forall k :: r <= k < c ==> s[k] == ' '
  {
    if c > 0 && s[c - 1] == ' ' then BackOverBlanks(s, c - 1) else c
  }

  // The text before the colon at c, without blanks before the colon.  With only blanks before it
  // the index goes below zero and counts from the end.
  function Header(s: string, c: nat): string
    requires c < |s|
  {
    var k := BackOverBlanks(s, c);
    if k > 0 then s[..k]
    else if s[|s| - 1] != ' ' then ""
    else s[..BackOverBlanks(s, |s|)]
  }

  // With only blanks before the colon the name is empty, unless the text ends in a blank: then the index has
  // wrapped around, and all but the blanks at the end counts as the header.
  lemma NoHeader(s: string, c: nat)
    requires c < |s| && s[c] != ' ' && forall k :: 0 <= k < c ==> s[k] == ' '
    ensures s[|s| - 1] != ' ' ==> Header(s, c) == ""
    ensures s[|s| - 1] == ' ' ==>
      var h := Header(s, c); h <= s && |h| > c && h[|h| - 1] != ' ' && forall k :: |h| <= k < |s| ==> s[k] == ' '
  {
    assert BackOverBlanks(s, |s|) > c;
  }

  // Everything up to the last white space removed.
  function LastWord(s: string): string {
    if s == "" || Space(s[|s| - 1]) then "" else LastWord(s[..|s| - 1]) + [s[|s| - 1]]
  }

  // enclosing_table_name, or None where the program raises ValueError
  function EnclosingName(s: string, piece: string, i: nat): Option<string> {
    var end: nat := match Enclosing(s, piece, i)
      case Some((o, _)) => o
      case None => if s == "" then 0 else |s| - 1;
    match LastColon(s, end)
    case None => None
    case Some(c) => Some(LastWord(Header(s, c)))
  }

  // The word w stands at a on its own, with blanks only between it and the colon at c.
  ghost predicate KeyAt(s: string, a: nat, w: string, c: nat) {
    && Word(w) && Occurs(s, w, a) && (a == 0 || Space(s[a - 1]))
    && a + |w| <= c < |s| && s[c] == ':' && forall k :: a + |w| <= k < c ==> s[k] == ' '
  }

  // The brace at o belongs to a table with the plain header `name :{`.
  ghost predicate HeaderAt(s: string, o: nat, name: string, a: nat, c: nat) {
    KeyAt(s, a, name, c) && BraceOf(s, name, a) == Some(o)
  }

  // If the brace around the place belongs to a table with a plain header, its name is returned.
  lemma EnclosingNameNames(s: string, piece: string, i: nat, name: string, a: nat, c: nat)
    requires Enclosing(s, piece, i).Some? && HeaderAt(s, Enclosing(s, piece, i).value.0, name, a, c)
    ensures EnclosingName(s, piece, i) == Some(name)
  {
    HeaderNames(s, Enclosing(s, piece, i).value.0, name, a, c);
  }

  lemma HeaderNames(s: string, o: nat, name: string, a: nat, c: nat)
    requires HeaderAt(s, o, name, a, c)
    ensures LastColon(s, o) == Some(c) && LastWord(Header(s, c)) == name
  {
    ColonBefore(s, a + |name|, c, o);
    HeaderIs(s, a, name, c);
  }

  lemma {:induction false} ColonBefore(s: string, i: nat, c: nat, o: nat)
    requires i <= c < |s| && s[c] == ':' && (forall k :: i <= k < c ==> s[k] == ' ')
    requires AfterName(s, i, false) == Some(o)
    ensures LastColon(s, o) == Some(c)
    decreases c - i
  {
    if i < c { ColonBefore(s, i + 1, c, o); } else { NoBraceBetween(s, c + 1, true); }
  }

  lemma HeaderIs(s: string, a: nat, name: string, c: nat)
    requires Word(name) && Occurs(s, name, a) && (a == 0 || Space(s[a - 1]))
    requires a + |name| <= c < |s| && forall k :: a + |name| <= k < c ==> s[k] == ' '
    ensures LastWord(Header(s, c)) == name
  {
    var e := a + |name|;
    assert s[a..e] == name;
    assert s[e - 1] == s[a..e][|name| - 1] && WordChar(s[e - 1]);
    assert BackOverBlanks(s, c) == e;
    assert s[..e] == s[..a] + name;
    LastWordIs(s[..a], name);
  }

  lemma {:induction false} LastWordIs(s: string, w: string)
    requires (forall i :: 0 <= i < |w| ==> WordChar(w[i])) && (s == "" || Space(s[|s| - 1]))
    ensures LastWord(s + w) == w
    decreases |w|
  {
    if w == "" {
      assert s + w == s;
    } else {
      var v := w[..|w| - 1];
      assert (s + w)[..|s + w| - 1] == s + v && (s + w)[|s + w| - 1] == w[|w| - 1];
      assert WordChar(w[|w| - 1]);
      LastWordIs(s, v);
    }
  }

  lemma {:induction false} LastWordEnds(s: string)
    ensures var w := LastWord(s);
            |w| <= |s| && s[|s| - |w|..] == w && (|w| < |s| ==> Space(s[|s| - |w| - 1]))
    decreases |s|
  {
    if s != "" && !Space(s[|s| - 1]) {
      var init, last := s[..|s| - 1], s[|s| - 1];
      LastWordEnds(init);
      OneMoreEnds(init, LastWord(init), last);
      assert s == init + [last];
    }
  }

  lemma OneMoreEnds(s: string, w: string, x: char)
    requires |w| <= |s| && s[|s| - |w|..] == w
    ensures (s + [x])[|s| - |w|..] == w + [x]
  {
  }

  ghost predicate IsKey(s: string, w: string, c: nat) {
    exists a: nat :: KeyAt(s, a, w, c)
  }

  // The last key of the text, if the last character is left aside.
  ghost predicate LastKeyIs(s: string, w: string) {
    s != "" && LastColon(s, |s| - 1).Some? && IsKey(s, w, LastColon(s, |s| - 1).value)
  }

  // What stands before a colon is w exactly if w is a key there.
  lemma KeyBefore(s: string, w: string, c: nat, x: nat)
    requires Word(w) && c < |s| && s[c] == ':' && x < c && s[x] != ' '
    ensures LastWord(Header(s, c)) == w <==> IsKey(s, w, c)
  {
    var k := BackOverBlanks(s, c);
    assert k > x && Header(s, c) == s[..k];
    WordIsKey(s, w, c, k);
    if IsKey(s, w, c) {
      var a: nat :| KeyAt(s, a, w, c);
      HeaderIs(s, a, w, c);
    }
  }

  lemma WordIsKey(s: string, w: string, c: nat, k: nat)
    requires Word(w) && k <= c < |s| && s[c] == ':' && (forall j :: k <= j < c ==> s[j] == ' ')
    ensures LastWord(s[..k]) == w ==> IsKey(s, w, c)
  {
    if LastWord(s[..k]) == w {
      LastWordEnds(s[..k]);
      KeyFound(s, w, c, k);
    }
  }

  lemma KeyFound(s: string, w: string, c: nat, k: nat)
    requires Word(w) && k <= c < |s| && s[c] == ':' && (forall j :: k <= j < c ==> s[j] == ' ')
    requires |w| <= k && s[..k][k - |w|..] == w && (|w| < k ==> Space(s[..k][k - |w| - 1]))
    ensures KeyAt(s, k - |w|, w, c)
  {
    var a := k - |w|;
    assert s[a..k] == s[..k][a..] == w;
  }

  // A key at the last colon is the last key, and there is no other.
  lemma OneLastKey(s: string, w: string, a: nat, k: nat, u: string)
    requires s != "" && LastColon(s, |s| - 1) == Some(k) && KeyAt(s, a, w, k) && Word(u)
    ensures LastKeyIs(s, u) <==> u == w
  {
    assert s[a] == s[a..a + |w|][0] == w[0] && WordChar(w[0]);
    KeyBefore(s, u, k, a);
    KeyBefore(s, w, k, a);
    assert IsKey(s, w, k);
  }

  // With no brace open since the start of the search, the name that is returned is the last key of
  // the whole text, wherever the piece stands: it may be the name of a table far behind it.
  lemma NothingOpenNamesTheLast(s: string, piece: string, i: nat, w: string, x: nat)
    requires Balanced(s) && Find(s, piece, i).Some? && NoneOpen(s, i, Find(s, piece, i).value) && s != "" && Word(w)
    requires LastColon(s, |s| - 1).Some? && x < LastColon(s, |s| - 1).value && s[x] != ' '
    ensures EnclosingName(s, piece, i) == Some(w) <==> LastKeyIs(s, w)
  {
    BalancedEncloses(s, piece, i);
    KeyBefore(s, w, LastColon(s, |s| - 1).value, x);
  }
}
