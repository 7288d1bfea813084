/** Which table the rewriting loop takes for the enclosing one.  It finds it from its stale offset on, in
    text that has been rewritten before; yet the document as it was decides. */
module FhiclEnclosing {
  import opened Wrappers
  import opened Strings
  import opened FhiclSearch
  import opened FhiclBraces
  import opened FhiclRewrite

  // ----- the enclosing table of a place in the document

  ghost predicate Headed(s: string, o: nat, name: string) {
    exists a: nat, c: nat :: HeaderAt(s, o, name, a, c)
  }

  // The innermost brace open at x belongs to a table of that name.
  ghost predicate DirectlyIn(s: string, x: nat, name: string) {
    exists o: nat :: InnermostOpen(s, 0, x, o) && Headed(s, o, name)
  }

  // Where the name is mentioned inside braces, the innermost brace has a plain header.
  ghost predicate Tidy(s: string, name: string) {
    forall m: nat, o: nat :: Occurs(s, name, m) && InnermostOpen(s, 0, m, o) ==> exists w :: Headed(s, o, w)
  }

  // The name is no part of the word.
  ghost predicate Apart(name: string, word: string) {
    forall i :: 0 <= i ==> !Occurs(word, name, i)
  }

  // Whether the loop takes w for the enclosing table, told about the document as it was: with a brace
  // opened since `from` and still open at the first mention of the name, by the table there; else by the
  // last key of the text.
  ghost predicate JudgedIn(s: string, name: string, w: string, from: nat) {
    match Find(s, name, from)
    case None => false
    case Some(m) => if NoneOpen(s, from, m) then LastKeyIs(s, w) else DirectlyIn(s, m, w)
  }

  lemma InnermostIsUnique(s: string, i: nat, x: nat, o: nat, j: nat, p: nat)
    requires InnermostOpen(s, i, x, o) && InnermostOpen(s, j, x, p)
    ensures o == p
  {
    assert Net(s[o..x]) == 1 && Net(s[p..x]) == 1;
  }

  lemma HeadedOnce(s: string, o: nat, v: string, w: string)
    requires Headed(s, o, v) && Headed(s, o, w)
    ensures v == w
  {
    var a: nat, c: nat :| HeaderAt(s, o, v, a, c);
    var b: nat, d: nat :| HeaderAt(s, o, w, b, d);
    HeaderNames(s, o, v, a, c);
    HeaderNames(s, o, w, b, d);
  }

  lemma DirectlyInMeans(s: string, i: nat, x: nat, o: nat, v: string, w: string)
    requires InnermostOpen(s, i, x, o) && Headed(s, o, v)
    ensures DirectlyIn(s, x, w) <==> v == w
  {
    assert InnermostOpen(s, 0, x, o);
    if DirectlyIn(s, x, w) {
      var p: nat :| InnermostOpen(s, 0, x, p) && Headed(s, p, w);
      InnermostIsUnique(s, 0, x, o, 0, p);
      HeadedOnce(s, o, v, w);
    }
  }

  // ----- the text so far and the document

  // Where a place behind p has got to.
  function At(c: Scan, x: nat): nat
    requires c.p <= x
  {
    |c.done| + (x - c.p)
  }

  // Nothing that is searched again leaves a brace open.
  ghost predicate NothingLeftOpen(c: Scan) {
    forall k :: c.searchStart <= k <= |c.done| ==> Net(c.done[k..]) <= 0
  }

  // What has been rewritten up to p ends with a closed table, and nothing in it that is searched
  // again mentions the name or leaves a brace open.
  ghost predicate Settled(s: string, name: string, c: Scan) {
    && c.p <= |s| && NoneMentionedTwice(s, name, c) && Balanced(Current(s, c))
    && NothingLeftOpen(c)
    && (if c.p > 0 then s[c.p - 1] == '}' else c.done == "")
  }

  lemma SuffixNets(x: string, k: nat)
    requires Balanced(x) && k <= |x|
    ensures Net(x[k..]) <= 0
  {
    assert x == x[..k] + x[k..];
    NetJoin(x[..k], x[k..]);
  }

  lemma EndsClosed(s: string, b: nat, e: nat)
    requires Closes(s, b, e)
    ensures s[e] == '}'
  {
    NetStep(s, b, e);
  }

  lemma TailNets(before: string, shown: string, k: nat)
    requires Balanced(shown) && |before| <= k <= |before + shown|
    ensures Net((before + shown)[k..]) <= 0
  {
    assert (before + shown)[k..] == shown[k - |before|..];
    SuffixNets(shown, k - |before|);
  }

  lemma RangeEndsClosed(s: string, name: string, i: nat, v: Visit)
    requires TableRange(s, name, i) == Between(v.start, v.end)
    ensures v.start + 2 < v.end <= |s| && s[v.end - 1] == '}'
  {
    RangeIsMatched(s, name, i);
    EndsClosed(s, BraceOf(s, name, v.start).value, v.end - 1);
  }

  lemma NothingOpenAfter(s: string, name: string, nodes: Nodes, c: Scan, v: Visit)
    requires c.p <= |s| && Fits(s, c, v) && Balanced(Shown(s, name, nodes, v))
    ensures NothingLeftOpen(After(s, name, nodes, c, v))
  {
    var d := After(s, name, nodes, c, v);
    forall k | d.searchStart <= k <= |d.done| ensures Net(d.done[k..]) <= 0 {
      TailNets(c.done + s[c.p..v.start], Shown(s, name, nodes, v), k);
    }
  }

  lemma QuietAfter(s: string, name: string, nodes: Nodes, c: Scan, v: Visit)
    requires Word(name) && Quiet(name, nodes) && Balanced(nodes.inter) && Balanced(nodes.intra)
    requires c.p <= |s| && Fits(s, c, v) && Next(s, name, c, v) && Balanced(Current(s, c))
    ensures var d := After(s, name, nodes, c, v); NoneMentionedTwice(s, name, d) && Balanced(Current(s, d))
  {
    AfterMentionsNothing(s, name, nodes, c, v);
    BalancedAfter(s, name, nodes, c, v);
  }

  lemma ClosedAfter(s: string, name: string, nodes: Nodes, c: Scan, v: Visit, d: Scan)
    requires Word(name) && Balanced(nodes.inter) && Balanced(nodes.intra)
    requires c.p <= |s| && Fits(s, c, v) && TableRange(s, name, From(c)) == Between(v.start, v.end)
    requires d == After(s, name, nodes, c, v)
    ensures EndsShut(s, d) && NothingLeftOpen(d)
  {
    RangeEndsClosed(s, name, From(c), v);
    ShownIsBalanced(s, name, nodes, From(c), v);
    NothingOpenAfter(s, name, nodes, c, v);
  }

  ghost predicate EndsShut(s: string, c: Scan) {
    0 < c.p <= |s| && s[c.p - 1] == '}'
  }

  lemma AllSettled(s: string, name: string, c: Scan)
    requires EndsShut(s, c)
    requires NoneMentionedTwice(s, name, c) && Balanced(Current(s, c)) && NothingLeftOpen(c)
    ensures Settled(s, name, c)
  {
  }

  lemma ScannedIsSettled(s: string, name: string, nodes: Nodes, log: seq<Visit>, c: Scan)
    requires Word(name) && Quiet(name, nodes) && Balanced(nodes.inter) && Balanced(nodes.intra)
    requires Balanced(s) && Scanned(s, name, nodes, log) == Some(c)
    ensures Settled(s, name, c)
  {
    if log == [] {
      assert "" + s[0..] == s;
    } else {
      LastIsQuiet(s, name, nodes, log, c);
      LastIsClosed(s, name, nodes, log, c);
      AllSettled(s, name, c);
    }
  }

  lemma LastIsQuiet(s: string, name: string, nodes: Nodes, log: seq<Visit>, c: Scan)
    requires Word(name) && Quiet(name, nodes) && Balanced(nodes.inter) && Balanced(nodes.intra)
    requires Balanced(s) && log != [] && Scanned(s, name, nodes, log) == Some(c)
    ensures NoneMentionedTwice(s, name, c) && Balanced(Current(s, c))
  {
    var b := BeforeLast(s, name, nodes, log, c);
    StaysBalanced(s, name, nodes, Init(log), b);
    QuietAfter(s, name, nodes, b, Last(log));
  }

  lemma LastIsClosed(s: string, name: string, nodes: Nodes, log: seq<Visit>, c: Scan)
    requires Word(name) && Balanced(nodes.inter) && Balanced(nodes.intra)
    requires log != [] && Scanned(s, name, nodes, log) == Some(c)
    ensures EndsShut(s, c) && NothingLeftOpen(c)
  {
    var b := BeforeLast(s, name, nodes, log, c);
    ClosedAfter(s, name, nodes, b, Last(log), c);
  }

  // ----- what is found from the stale offset

  lemma FindCarries(s: string, name: string, c: Scan, m: nat)
    requires Settled(s, name, c) && Find(s, name, From(c)) == Some(m)
    ensures Find(Current(s, c), name, c.searchStart) == Some(At(c, m))
  {
    NoneUntil(s, name, c, m);
    FoundFirst(Current(s, c), name, c.searchStart, At(c, m));
  }

  lemma NoneUntil(s: string, name: string, c: Scan, m: nat)
    requires c.p <= |s| && NoneMentionedTwice(s, name, c)
    requires From(c) <= m && Occurs(s, name, m) && forall j :: From(c) <= j < m ==> !Occurs(s, name, j)
    ensures var t, loc := Current(s, c), At(c, m);
            c.searchStart <= loc && Occurs(t, name, loc) && forall j :: c.searchStart <= j < loc ==> !Occurs(t, name, j)
  {
    var t, loc := Current(s, c), At(c, m);
    OccursInRest(s, name, c, m - c.p);
    forall j: nat | c.searchStart <= j < loc ensures !Occurs(t, name, j) {
      if |c.done| <= j { OccursInRest(s, name, c, j - |c.done|); }
    }
  }

  lemma OccursInRest(s: string, name: string, c: Scan, j: nat)
    requires c.p <= |s|
    ensures Occurs(Current(s, c), name, |c.done| + j) == Occurs(s, name, c.p + j)
  {
    assert Current(s, c)[|c.done|..] == s[c.p..];
    OccursShift(Current(s, c), name, |c.done|, j);
    OccursShift(s, name, c.p, j);
  }

  // From the end of the rewritten part to the mention, the texts are the same.
  lemma SameUpTo(s: string, c: Scan, m: nat, k: nat)
    requires c.p <= k <= m <= |s|
    ensures Current(s, c)[At(c, k)..At(c, m)] == s[k..m]
  {
  }

  // The rewritten part opens nothing that is still open.
  lemma NetFurther(s: string, name: string, c: Scan, m: nat, k: nat)
    requires Settled(s, name, c) && c.p <= m <= |s| && c.searchStart <= k <= |c.done|
    ensures Net(Current(s, c)[k..At(c, m)]) <= Net(s[c.p..m])
  {
    var t, d, loc := Current(s, c), |c.done|, At(c, m);
    NetSplit(t, k, d, loc);
    assert t[k..d] == c.done[k..];
    SameUpTo(s, c, m, c.p);
  }

  lemma NoneOpenCarries(s: string, name: string, c: Scan, m: nat)
    requires Settled(s, name, c) && From(c) <= m && NoneOpen(s, From(c), m)
    ensures NoneOpen(Current(s, c), c.searchStart, At(c, m))
  {
    var t, loc := Current(s, c), At(c, m);
    forall k | c.searchStart <= k <= loc ensures Net(t[k..loc]) <= 0 {
      if k <= |c.done| {
        NetFurther(s, name, c, m, k);
        assert Net(s[c.p..m]) <= 0 || c.searchStart > |c.done|;
      } else {
        SameUpTo(s, c, m, c.p + (k - |c.done|));
      }
    }
  }

  lemma OpenCarries(s: string, c: Scan, m: nat, o: nat)
    requires c.p <= |s| && From(c) <= m && InnermostOpen(s, From(c), m, o)
    ensures InnermostOpen(Current(s, c), c.searchStart, At(c, m), At(c, o))
  {
    var t, d, loc := Current(s, c), |c.done|, At(c, m);
    SameUpTo(s, c, m, o);
    forall k | At(c, o) < k <= loc ensures Net(t[k..loc]) <= 0 {
      SameUpTo(s, c, m, c.p + (k - d));
    }
  }

  // A header behind the last visited table is the same in both texts.
  lemma HeaderCarries(s: string, name: string, c: Scan, o: nat, w: string, a: nat, k: nat)
    requires Settled(s, name, c) && c.p <= o && HeaderAt(s, o, w, a, k)
    ensures c.p <= a && HeaderAt(Current(s, c), At(c, o), w, At(c, a), At(c, k))
  {
    HeaderIsBehind(s, name, c, o, w, a, k);
    BraceCarries(s, c, o, w, a);
    if c.p == a { assert Current(s, c) == s; } else { KeyCarries(s, c, a, w, k); }
  }

  lemma HeaderIsBehind(s: string, name: string, c: Scan, o: nat, w: string, a: nat, k: nat)
    requires Settled(s, name, c) && c.p <= o && HeaderAt(s, o, w, a, k)
    ensures c.p < a || (c.p == a == 0 && c.done == "")
  {
    HeaderIsPlain(s, o, w, a, k);
  }

  lemma BraceCarries(s: string, c: Scan, o: nat, w: string, a: nat)
    requires c.p <= a && c.p <= |s| && BraceOf(s, w, a) == Some(o)
    ensures c.p <= o && BraceOf(Current(s, c), w, At(c, a)) == Some(At(c, o))
  {
    assert Current(s, c)[|c.done|..] == s[c.p..];
    BraceShift(s, w, c.p, a - c.p);
    BraceShift(Current(s, c), w, |c.done|, a - c.p);
  }

  // No closing brace stands in a header.
  lemma HeaderIsPlain(s: string, o: nat, w: string, a: nat, k: nat)
    requires HeaderAt(s, o, w, a, k)
    ensures forall j :: a <= j < o ==> s[j] != '}'
  {
    NoBraceBetween(s, a + |w|, false);
    forall j | a <= j < o ensures s[j] != '}' {
      if j < a + |w| { assert s[j] == s[a..a + |w|][j - a] == w[j - a]; }
    }
  }

  // A key behind p is what it is in the rest alone.
  lemma KeyShift(s: string, p: nat, b: nat, w: string, k: nat)
    requires p <= |s| && 0 < b && p <= k
    ensures KeyAt(s, p + b, w, k) <==> KeyAt(s[p..], b, w, k - p)
  {
    OccursShift(s, w, p, b);
    var r := s[p..];
    assert forall j: nat :: j < |r| ==> r[j] == s[p + j];
    if KeyAt(s, p + b, w, k) {
      forall j | b + |w| <= j < k - p ensures r[j] == ' ' { assert s[p + j] == ' '; }
    }
    if KeyAt(r, b, w, k - p) {
      forall j | p + b + |w| <= j < k ensures s[j] == ' ' { assert r[j - p] == ' '; }
    }
  }

  lemma KeyInRest(done: string, rest: string, b: nat, w: string, k: nat)
    requires 0 < b
    ensures KeyAt(done + rest, |done| + b, w, |done| + k) <==> KeyAt(rest, b, w, k)
  {
    assert (done + rest)[|done|..] == rest;
    KeyShift(done + rest, |done|, b, w, |done| + k);
  }

  lemma KeyCarries(s: string, c: Scan, a: nat, w: string, k: nat)
    requires c.p <= |s| && c.p < a && c.p <= k
    ensures KeyAt(s, a, w, k) <==> KeyAt(Current(s, c), At(c, a), w, At(c, k))
  {
    KeyShift(s, c.p, a - c.p, w, k);
    KeyInRest(c.done, s[c.p..], a - c.p, w, k - c.p);
  }

  // ----- the last key

  // A word of the text that stands before a colon and behind p is what it is in the rest alone.
  lemma LastColonCarries(s: string, c: Scan, k: nat)
    requires c.p <= k && k + 1 < |s| && LastColon(s, |s| - 1) == Some(k)
    ensures Current(s, c) != "" && LastColon(Current(s, c), |Current(s, c)| - 1) == Some(At(c, k))
  {
    var t, d := Current(s, c), |c.done|;
    forall j: nat | d <= j < |t| ensures t[j] == s[c.p + (j - d)] {}
    LastColonIs(t, |t| - 1, At(c, k));
  }

  lemma LastColonIs(t: string, end: nat, k: nat)
    requires k < end <= |t| && t[k] == ':' && forall j :: k < j < end ==> t[j] != ':'
    ensures LastColon(t, end) == Some(k)
  {
  }

  // A word in front of a colon is part of the key if the key starts no later.
  lemma WordInKey(t: string, a: nat, w: string, k: nat, name: string, x: nat)
    requires KeyAt(t, a, w, k) && Word(name) && Occurs(t, name, x) && x + |name| <= k && a <= x
    ensures Occurs(w, name, x - a)
  {
    var last := x + |name| - 1;
    assert t[last] == t[x..x + |name|][|name| - 1] && WordChar(name[|name| - 1]);
    assert last < a + |w|;
    Within(t, a, a + |w|, x - a, x - a + |name|);
  }

  // Such a word cannot reach from before the name to a colon behind it.
  lemma KeyStartsLater(t: string, a: nat, w: string, k: nat, name: string, x: nat)
    requires Word(name) && Apart(name, w) && Occurs(t, name, x) && x + |name| <= k && a <= x
    ensures !KeyAt(t, a, w, k)
  {
    if KeyAt(t, a, w, k) { WordInKey(t, a, w, k, name, x); }
  }

  lemma LastKeyCarries(s: string, name: string, w: string, c: Scan, x: nat, k: nat)
    requires Word(name) && Apart(name, w) && c.p <= x && Occurs(s, name, x) && c.p <= |s| && x + |name| <= k
    ensures IsKey(Current(s, c), w, At(c, k)) <==> IsKey(s, w, k)
  {
    var t, d, j := Current(s, c), |c.done|, At(c, k);
    OccursInRest(s, name, c, x - c.p);
    forall a: nat | KeyAt(s, a, w, k) ensures IsKey(t, w, j) {
      KeyIsBehind(s, a, w, k, name, x, c.p);
      KeyCarries(s, c, a, w, k);
    }
    forall b: nat | KeyAt(t, b, w, j) ensures IsKey(s, w, k) {
      KeyIsBehind(t, b, w, j, name, At(c, x), d);
      KeyCarries(s, c, c.p + (b - d), w, k);
    }
  }

  lemma KeyIsBehind(t: string, a: nat, w: string, k: nat, name: string, x: nat, p: nat)
    requires Word(name) && Apart(name, w) && Occurs(t, name, x) && x + |name| <= k && p <= x && KeyAt(t, a, w, k)
    ensures p < a
  {
    if a <= x { KeyStartsLater(t, a, w, k, name, x); }
  }

  // ----- what decides

  // In balanced text the search finds the innermost brace.
  lemma EnclosingIs(t: string, name: string, i: nat, loc: nat, o: nat)
    requires Balanced(t) && Find(t, name, i) == Some(loc) && InnermostOpen(t, i, loc, o)
    ensures Enclosing(t, name, i).Some? && Enclosing(t, name, i).value.0 == o
  {
    assert Net(t[o..loc]) > 0;
    BalancedEncloses(t, name, i);
    EnclosingOpens(t, name, i);
    InnermostIsUnique(t, i, loc, o, i, Enclosing(t, name, i).value.0);
  }

  lemma HeaderDecides(t: string, name: string, i: nat, loc: nat, o: nat, w: string, a: nat, k: nat)
    requires Balanced(t) && Find(t, name, i) == Some(loc) && InnermostOpen(t, i, loc, o) && HeaderAt(t, o, w, a, k)
    ensures EnclosingName(t, name, i) == Some(w)
  {
    EnclosingIs(t, name, i, loc, o);
    EnclosingNameNames(t, name, i, w, a, k);
  }

  // With a brace opened in time, the header of its table decides.
  lemma NameFound(s: string, name: string, c: Scan, m: nat, o: nat, w: string)
    requires Settled(s, name, c) && Find(s, name, From(c)) == Some(m) && InnermostOpen(s, From(c), m, o) &&
             Headed(s, o, w)
    ensures EnclosingName(Current(s, c), name, c.searchStart) == Some(w)
  {
    var a: nat, k: nat :| HeaderAt(s, o, w, a, k);
    FindCarries(s, name, c, m);
    OpenCarries(s, c, m, o);
    HeaderCarries(s, name, c, o, w, a, k);
    HeaderDecides(Current(s, c), name, c.searchStart, At(c, m), At(c, o), w, At(c, a), At(c, k));
  }

  lemma DecidedByTable(s: string, name: string, w: string, c: Scan, m: nat, o: nat)
    requires Settled(s, name, c) && Tidy(s, name)
    requires Find(s, name, From(c)) == Some(m) && InnermostOpen(s, From(c), m, o)
    ensures EnclosingName(Current(s, c), name, c.searchStart) == Some(w) <==> DirectlyIn(s, m, w)
  {
    assert InnermostOpen(s, 0, m, o);
    var v :| Headed(s, o, v);
    NameFound(s, name, c, m, o, v);
    DirectlyInMeans(s, From(c), m, o, v, w);
  }

  lemma LastKeyDecides(t: string, name: string, w: string, i: nat, loc: nat, k: nat, x: nat)
    requires Balanced(t) && Find(t, name, i) == Some(loc) && NoneOpen(t, i, loc) && Word(w)
    requires t != "" && LastColon(t, |t| - 1) == Some(k) && Word(name) && Occurs(t, name, x) && x < k
    ensures EnclosingName(t, name, i) == Some(w) <==> IsKey(t, w, k)
  {
    StartsWithWord(t, name, x);
    NothingOpenNamesTheLast(t, name, i, w, x);
  }

  // With none, the last key of the text does.
  lemma DecidedByLastKey(s: string, name: string, w: string, c: Scan, m: nat, x: nat, k: nat)
    requires Settled(s, name, c) && Word(name) && Word(w) && Apart(name, w)
    requires Find(s, name, From(c)) == Some(m) && NoneOpen(s, From(c), m)
    requires c.p <= x && Occurs(s, name, x) && s != "" && LastColon(s, |s| - 1) == Some(k) && x + |name| <= k
    ensures EnclosingName(Current(s, c), name, c.searchStart) == Some(w) <==> LastKeyIs(s, w)
  {
    DecidedInText(s, name, w, c, m, x, k);
    LastKeyCarries(s, name, w, c, x, k);
  }

  lemma DecidedInText(s: string, name: string, w: string, c: Scan, m: nat, x: nat, k: nat)
    requires Settled(s, name, c) && Word(name) && Find(s, name, From(c)) == Some(m) && NoneOpen(s, From(c), m)
    requires c.p <= x < k && Occurs(s, name, x) && s != "" && LastColon(s, |s| - 1) == Some(k) && Word(w)
    ensures EnclosingName(Current(s, c), name, c.searchStart) == Some(w) <==> IsKey(Current(s, c), w, At(c, k))
  {
    LastKeyPlaces(s, name, c, m, x, k);
    LastKeyDecides(Current(s, c), name, w, c.searchStart, At(c, m), At(c, k), At(c, x));
  }

  lemma LastKeyPlaces(s: string, name: string, c: Scan, m: nat, x: nat, k: nat)
    requires Settled(s, name, c) && Find(s, name, From(c)) == Some(m) && NoneOpen(s, From(c), m)
    requires c.p <= x < k && Occurs(s, name, x) && s != "" && LastColon(s, |s| - 1) == Some(k)
    ensures var t := Current(s, c);
            && Find(t, name, c.searchStart) == Some(At(c, m)) && NoneOpen(t, c.searchStart, At(c, m))
            && t != "" && LastColon(t, |t| - 1) == Some(At(c, k)) && Occurs(t, name, At(c, x)) && At(c, x) < At(c, k)
  {
    FindCarries(s, name, c, m);
    NoneOpenCarries(s, name, c, m);
    LastColonCarries(s, c, k);
    OccursInRest(s, name, c, x - c.p);
  }

  lemma StartsWithWord(t: string, name: string, x: nat)
    requires Word(name) && Occurs(t, name, x)
    ensures t[x] != ' '
  {
    assert t[x] == t[x..x + |name|][0] == name[0];
  }

  lemma DecidedAsJudged(s: string, name: string, w: string, c: Scan, m: nat, x: nat, k: nat)
    requires Settled(s, name, c) && Word(name) && Word(w) && Apart(name, w) && Tidy(s, name)
    requires Find(s, name, From(c)) == Some(m)
    requires c.p <= x && Occurs(s, name, x) && s != "" && LastColon(s, |s| - 1) == Some(k) && x + |name| <= k
    ensures EnclosingName(Current(s, c), name, c.searchStart) == Some(w) <==> JudgedIn(s, name, w, From(c))
  {
    if NoneOpen(s, From(c), m) {
      DecidedByLastKey(s, name, w, c, m, x, k);
    } else {
      var o := SomeOpen(s, From(c), m);
      DecidedByTable(s, name, w, c, m, o);
    }
  }

  lemma SomeOpen(s: string, i: nat, m: nat) returns (o: nat)
    requires i <= m <= |s| && !NoneOpen(s, i, m)
    ensures InnermostOpen(s, i, m, o)
  {
    assert s[m..m] == "";
    OpenBeforeIsInnermost(s, i, m, m);
    o := OpenBefore(s, i, m, 0).value;
  }

  // What the loop goes by at the table it finds next is what the document says from there on.
  lemma EnclosingAsJudged(s: string, name: string, w: string, c: Scan, v: Visit)
    requires Settled(s, name, c) && Word(name) && Word(w) && Apart(name, w) && Tidy(s, name) && Next(s, name, c, v)
    ensures v.enclosing == w <==> JudgedIn(s, name, w, From(c))
  {
    var m := MentionAndColon(s, name, From(c), v.start);
    DecidedAsJudged(s, name, w, c, m, v.start, LastColon(s, |s| - 1).value);
  }

  // A table that is found is mentioned, and its colon is not the last character.
  lemma MentionAndColon(s: string, name: string, i: nat, a: nat) returns (m: nat)
    requires TableRange(s, name, i).Between? && TableRange(s, name, i).start == a
    ensures Find(s, name, i) == Some(m) && m <= a && Occurs(s, name, a) && s != ""
    ensures LastColon(s, |s| - 1).Some? && a + |name| <= LastColon(s, |s| - 1).value
  {
    m := Find(s, name, i).value;
    var k := ColonOf(s, a + |name|);
    var found := LastColon(s, |s| - 1);
    assert found.Some?;
  }

  lemma {:induction false} ColonOf(s: string, i: nat) returns (k: nat)
    requires AfterName(s, i, false).Some?
    ensures i <= k < AfterName(s, i, false).value && s[k] == ':'
    decreases |s| - i
  {
    if Space(s[i]) { k := ColonOf(s, i + 1); } else { k := i; }
  }
}
