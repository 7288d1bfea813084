/** Documents the rewriting loop gets wrong: it keeps a table that is not in "message", replaces one that
    is, and lists the wrong nodes in one. */
module FhiclMisjudged {
  import opened Wrappers
  import opened Strings
  import opened FhiclSearch
  import opened FhiclBraces
  import opened FhiclRewrite
  import opened FhiclEnclosing
  import opened FhiclForeseen

  // A document whose table v has two tables x, and whose last table is w.
  function TwoTables(v: string, w: string): string {
    v + ":{ x:{} x:{} } " + w + ":{}"
  }

  ghost predicate PlainWord(v: string) {
    Word(v) && forall i :: 0 <= i < |v| ==> v[i] != 'x'
  }

  lemma TwoTablesText(v: string, w: string, k: nat)
    requires k < |TwoTables(v, w)|
    ensures var s, n, m := TwoTables(v, w), |v|, |v| + 15;
            && |s| == m + |w| + 3
            && (k < n ==> s[k] == v[k])
            && (n <= k < m ==> s[k] == ":{ x:{} x:{} } "[k - n])
            && (m <= k < m + |w| ==> s[k] == w[k - m])
            && (m + |w| <= k ==> s[k] == ":{}"[k - m - |w|])
  {
  }

  lemma TwoTablesBalanced(v: string, w: string)
    requires PlainWord(v) && PlainWord(w)
    ensures Balanced(TwoTables(v, w))
  {
    InnerBalanced();
    BracesAround(" x:{} x:{} ");
    BracesAround("");
    BalancedPlain(v + ":");
    BalancedPlain(" " + w + ":");
    var braces := Braced(" x:{} x:{} ");
    BalancedJoin(v + ":", braces);
    BalancedJoin(v + ":" + braces, " " + w + ":");
    BalancedJoin(v + ":" + braces + (" " + w + ":"), Braced(""));
    TwoTablesPieces(v, w);
  }

  lemma TwoTablesPieces(v: string, w: string)
    ensures TwoTables(v, w) == v + ":" + Braced(" x:{} x:{} ") + (" " + w + ":") + Braced("")
  {
    var braces, last := "{ x:{} x:{} }", "{}";
    assert Braced(" x:{} x:{} ") == braces && Braced("") == last;
    assert v + ":{ x:{} x:{} } " == v + ":" + braces + " ";
    assert w + ":{}" == w + ":" + last;
  }

  lemma InnerBalanced()
    ensures Balanced("") && Balanced(" x:{} x:{} ")
  {
    BalancedPlain("");
    BracesAround("");
    BalancedPlain(" x:");
    BalancedPlain(" ");
    assert Braced("") == "{}";
    BalancedJoin(" x:", "{}");
    assert " x:" + "{}" == " x:{}";
    BalancedJoin(" x:{}", " x:{}");
    assert " x:{}" + " x:{}" == " x:{} x:{}";
    BalancedJoin(" x:{} x:{}", " ");
    assert " x:{} x:{}" + " " == " x:{} x:{} ";
  }

  // The name x stands at two places only.
  lemma TwoMentions(v: string, w: string, k: nat)
    requires PlainWord(v) && PlainWord(w)
    ensures Occurs(TwoTables(v, w), "x", k) <==> k == |v| + 3 || k == |v| + 8
  {
    var s := TwoTables(v, w);
    if k < |s| {
      TwoTablesText(v, w, k);
      assert s[k..k + 1] == [s[k]];
      assert "x" == ['x'];
    }
  }

  lemma SmallTable(v: string, w: string, a: nat)
    requires PlainWord(v) && PlainWord(w) && (a == |v| + 3 || a == |v| + 8)
    ensures TableAt(TwoTables(v, w), "x", a) && RangeOf(TwoTables(v, w), "x", a) == Between(a, a + 4)
  {
    var s := TwoTables(v, w);
    TwoMentions(v, w, a);
    TwoTablesText(v, w, a + 1);
    TwoTablesText(v, w, a + 2);
    TwoTablesText(v, w, a + 3);
    assert s[a + 1] == ':' && s[a + 2] == '{' && s[a + 3] == '}';
    assert AfterName(s, a + 2, true) == Some(a + 2);
    assert BraceOf(s, "x", a) == Some(a + 2);
  }

  lemma TwoTablesRanges(v: string, w: string)
    requires PlainWord(v) && PlainWord(w)
    ensures var s, n := TwoTables(v, w), |v|;
            && TableRange(s, "x", 0) == Between(n + 3, n + 7) && TableRange(s, "x", n + 7) == Between(n + 8, n + 12)
            && TableRange(s, "x", n + 12) == Nowhere
  {
    var s, n := TwoTables(v, w), |v|;
    forall k: nat | k != n + 3 && k != n + 8 ensures !TableAt(s, "x", k) {
      TwoMentions(v, w, k);
      NoTableWithoutMention(s, "x", k);
    }
    SmallTable(v, w, n + 3);
    SmallTable(v, w, n + 8);
    FirstTableIs(s, "x", 0, Some(n + 3));
    FirstTableIs(s, "x", n + 7, Some(n + 8));
    FirstTableIs(s, "x", n + 12, None);
  }

  // The brace of v is the innermost one at both tables.
  lemma TwoTablesInside(v: string, w: string, a: nat)
    requires PlainWord(v) && PlainWord(w) && (a == |v| + 3 || a == |v| + 8)
    ensures InnermostOpen(TwoTables(v, w), 0, a, |v| + 1) && Headed(TwoTables(v, w), |v| + 1, v)
    ensures forall u :: DirectlyIn(TwoTables(v, w), a, u) <==> u == v
  {
    var s, n := TwoTables(v, w), |v|;
    var x := "{ x:{} ";
    assert s[n + 1..n + 8] == x;
    forall k | n + 1 <= k <= a ensures Net(s[k..a]) == Net(x[k - n - 1..a - n - 1]) {
      assert s[k..a] == x[k - n - 1..a - n - 1];
    }
    NetsOfBraces(x);
    TwoTablesText(v, w, n + 1);
    HeaderOfFirst(v, w);
    forall u ensures DirectlyIn(s, a, u) <==> u == v { DirectlyInMeans(s, 0, a, n + 1, v, u); }
  }

  lemma NetsOfBraces(x: string)
    requires x == "{ x:{} "
    ensures forall j, k {:trigger x[j..k]} ::
            0 <= j <= k && (k == 2 || k == 7) ==> (if j == 0 then Net(x[j..k]) == 1 else Net(x[j..k]) <= 0)
  {
    forall j, k {:trigger x[j..k]} | 0 <= j <= k && (k == 2 || k == 7)
      ensures if j == 0 then Net(x[j..k]) == 1 else Net(x[j..k]) <= 0
    {
      NetBack(x, j, k);
    }
  }

  lemma {:induction false} NetBack(x: string, j: nat, k: nat)
    requires x == "{ x:{} " && j <= k <= 7
    ensures Net(x[j..k]) == Upto(k) - Upto(j)
  {
    if j < k {
      NetBack(x, j, k - 1);
      NetStep(x, j, k - 1);
    } else {
      assert x[j..k] == "";
    }
  }

  // The net of the first k characters of "{ x:{} ".
  function Upto(k: nat): int {
    if k == 0 then 0 else if k == 5 then 2 else 1
  }

  lemma HeaderOfFirst(v: string, w: string)
    requires PlainWord(v)
    ensures Headed(TwoTables(v, w), |v| + 1, v)
  {
    var s, n := TwoTables(v, w), |v|;
    assert s[0..n] == v && s[n] == ':' && s[n + 1] == '{';
    assert AfterName(s, n + 1, true) == Some(n + 1);
    assert BraceOf(s, v, 0) == Some(n + 1);
    assert HeaderAt(s, n + 1, v, 0, n);
  }

  lemma TwoTablesLast(v: string, w: string, u: string)
    requires PlainWord(w) && Word(u)
    ensures LastKeyIs(TwoTables(v, w), u) <==> u == w
  {
    var s, a := TwoTables(v, w), |v| + 15;
    TwoTablesLastColon(v, w);
    assert s[a..a + |w|] == w && s[a - 1] == ' ';
    OneLastKey(s, w, a, a + |w|, u);
  }

  lemma TwoTablesLastColon(v: string, w: string)
    ensures var s, k := TwoTables(v, w), |v| + 15 + |w|; LastColon(s, |s| - 1) == Some(k) && s[k] == ':'
  {
    var s, k := TwoTables(v, w), |v| + 15 + |w|;
    assert s[k] == ':' && s[k + 1] == '{' && s[k + 2] == '}';
    LastColonIs(s, |s| - 1, k);
  }

  lemma FirstMention(v: string, w: string, i: nat, m: nat)
    requires PlainWord(v) && PlainWord(w) && ((i == 0 && m == |v| + 3) || (i == |v| + 7 && m == |v| + 8))
    ensures Find(TwoTables(v, w), "x", i) == Some(m)
  {
    var s := TwoTables(v, w);
    TwoMentions(v, w, m);
    forall k: nat | i <= k < m ensures !Occurs(s, "x", k) { TwoMentions(v, w, k); }
    FoundFirst(s, "x", i, m);
  }

  // For the first of the two tables in v the loop asks v; for the second it asks the last table.
  lemma FirstIsJudged(v: string, w: string, u: string)
    requires PlainWord(v) && PlainWord(w)
    ensures JudgedIn(TwoTables(v, w), "x", u, 0) <==> u == v
  {
    var s, n := TwoTables(v, w), |v|;
    FirstMention(v, w, 0, n + 3);
    TwoTablesInside(v, w, n + 3);
    assert Net(s[n + 1..n + 3]) > 0;
  }

  lemma SecondIsJudged(v: string, w: string, u: string)
    requires PlainWord(v) && PlainWord(w) && Word(u)
    ensures JudgedIn(TwoTables(v, w), "x", u, |v| + 7) <==> u == w
  {
    var s, m := TwoTables(v, w), |v| + 8;
    FirstMention(v, w, m - 1, m);
    TwoTablesText(v, w, m - 1);
    BlankOpensNothing(s, m);
    TwoTablesLast(v, w, u);
  }

  function FateIn(v: string): Fate {
    FateBy(v == "message", Sender(v))
  }

  lemma FatesOfTwo(v: string, w: string)
    requires PlainWord(v) && PlainWord(w)
    ensures var s, n := TwoTables(v, w), |v|;
            && JudgedFate(s, "x", 0) == FateIn(v) && JudgedFate(s, "x", n + 7) == FateIn(w)
            && DueFate(s, n + 3) == FateIn(v) && DueFate(s, n + 8) == FateIn(v)
  {
    forall u | Asked(u)
      ensures JudgedIn(TwoTables(v, w), "x", u, 0) <==> u == v
      ensures JudgedIn(TwoTables(v, w), "x", u, |v| + 7) <==> u == w
    {
      XIsForeign();
      AskedWords("x", u);
      FirstIsJudged(v, w, u);
      SecondIsJudged(v, w, u);
    }
    FateOfAsked(TwoTables(v, w), 0, v);
    FateOfAsked(TwoTables(v, w), |v| + 7, w);
    TwoTablesInside(v, w, |v| + 3);
    TwoTablesInside(v, w, |v| + 8);
  }

  lemma FateOfAsked(s: string, from: nat, v: string)
    requires forall u :: Asked(u) ==> (JudgedIn(s, "x", u, from) <==> u == v)
    ensures JudgedFate(s, "x", from) == FateIn(v)
  {
    assert Asked("message") && Asked("routingNetOutput") && Asked("binaryNetOutput") && Asked("subsystemOutput");
  }

  lemma BlankOpensNothing(s: string, m: nat)
    requires 0 < m <= |s| && s[m - 1] == ' '
    ensures NoneOpen(s, m - 1, m)
  {
    NetStep(s, m - 1, m - 1);
    assert s[m..m] == "" && s[m - 1..m - 1] == "";
    forall k | m - 1 <= k <= m ensures Net(s[k..m]) <= 0 {}
  }

  lemma TwoTablesTidy(v: string, w: string)
    requires PlainWord(v) && PlainWord(w)
    ensures Tidy(TwoTables(v, w), "x")
  {
    var s, n := TwoTables(v, w), |v|;
    forall m: nat, o: nat | Occurs(s, "x", m) && InnermostOpen(s, 0, m, o) ensures exists u :: Headed(s, o, u) {
      TwoMentions(v, w, m);
      TwoTablesInside(v, w, m);
      InnermostIsUnique(s, 0, m, o, 0, n + 1);
    }
  }

  // Both tables are visited; the second is treated as if it were in the last table of the document.
  lemma SecondOfTwo(v: string, w: string, nodes: Nodes, log: seq<Visit>, c: Scan)
    requires PlainWord(v) && PlainWord(w) && Quiet("x", nodes) && Balanced(nodes.inter) && Balanced(nodes.intra)
    requires Scanned(TwoTables(v, w), "x", nodes, log) == Some(c) && Stops(TwoTables(v, w), "x", c, None)
    ensures var n := |v|; SeenIn(log) == [Seen(n + 3, n + 7, FateIn(v)), Seen(n + 8, n + 12, FateIn(w))]
    ensures DueFate(TwoTables(v, w), |v| + 8) == FateIn(v)
  {
    TwoTablesBalanced(v, w);
    TwoTablesTidy(v, w);
    XIsForeign();
    RunAsForeseen(TwoTables(v, w), "x", nodes, log, c);
    TwoForeseen(v, w, nodes);
    FatesOfTwo(v, w);
  }

  lemma TwoForeseen(v: string, w: string, nodes: Nodes)
    requires PlainWord(v) && PlainWord(w)
    ensures Foreseen(TwoTables(v, w), "x", nodes, 0)
            == [Seen(|v| + 3, |v| + 7, FateIn(v)), Seen(|v| + 8, |v| + 12, FateIn(w))]
  {
    var s, n := TwoTables(v, w), |v|;
    TwoTablesRanges(v, w);
    FatesOfTwo(v, w);
    ShortForeseen(s, nodes, 0, n + 3);
    ShortForeseen(s, nodes, n + 7, n + 8);
    InARow(Foreseen(s, "x", nodes, 0), Seen(n + 3, n + 7, FateIn(v)), Foreseen(s, "x", nodes, n + 7),
           Seen(n + 8, n + 12, FateIn(w)), Foreseen(s, "x", nodes, n + 12));
  }

  lemma InARow(all: seq<Seen>, x: Seen, later: seq<Seen>, y: Seen, rest: seq<Seen>)
    requires all == [x] + later && later == [y] + rest && rest == []
    ensures all == [x, y]
  {
  }

  lemma ShortForeseen(s: string, nodes: Nodes, from: nat, a: nat)
    requires TableRange(s, "x", from) == Between(a, a + 4)
    ensures Foreseen(s, "x", nodes, from)
            == [Seen(a, a + 4, JudgedFate(s, "x", from))] + Foreseen(s, "x", nodes, a + 4)
  {
    ResumedAtEnd(s, "x", nodes, from, a, a + 4);
  }

  lemma XIsForeign()
    ensures Word("x") && Foreign("x")
  {
    NoX("message");
    NoX("routingNetOutput");
    NoX("binaryNetOutput");
    NoX("subsystemOutput");
  }

  lemma NoX(word: string)
    requires forall i :: 0 <= i < |word| ==> word[i] != 'x'
    ensures Apart("x", word)
  {
    forall i: nat ensures !Occurs(word, "x", i) {
      CharOf(word, "x", i, 0);
    }
  }

  lemma PlainWords()
    ensures PlainWord("a") && PlainWord("message") && PlainWord("binaryNetOutput")
  {
    PlainMessage();
    PlainBinary();
  }

  lemma PlainMessage()
    ensures PlainWord("message")
  {
    var w := "message";
    assert |w| == 7;
    assert w[0] == 'm' && w[1] == 'e' && w[2] == 's' && w[3] == 's' && w[4] == 'a' && w[5] == 'g' && w[6] == 'e';
  }

  lemma PlainBinary()
    ensures PlainWord("binaryNetOutput")
  {
    var w := "binaryNetOutput";
    assert |w| == 15;
    assert w[0] == 'b' && w[1] == 'i' && w[2] == 'n' && w[3] == 'a' && w[4] == 'r' && w[5] == 'y' && w[6] == 'N';
    assert w[7] == 'e' && w[8] == 't' && w[9] == 'O' && w[10] == 'u' && w[11] == 't' && w[12] == 'p';
    assert w[13] == 'u' && w[14] == 't';
  }

  lemma SpelledOutside()
    ensures TwoTables("a", "message") == "a:{ x:{} x:{} } message:{}"
  {
  }

  lemma SpelledInside()
    ensures TwoTables("message", "a") == "message:{ x:{} x:{} } a:{}"
  {
  }

  lemma SpelledSender()
    ensures TwoTables("binaryNetOutput", "a") == "binaryNetOutput:{ x:{} x:{} } a:{}"
  {
  }

  // A table outside "message" that is kept.
  lemma OutsideButKept(nodes: Nodes, log: seq<Visit>, c: Scan)
    requires Quiet("x", nodes) && Balanced(nodes.inter) && Balanced(nodes.intra)
    requires Scanned("a:{ x:{} x:{} } message:{}", "x", nodes, log) == Some(c)
    requires Stops("a:{ x:{} x:{} } message:{}", "x", c, None)
    ensures |log| == 2 && Kept(log[1]) && !DirectlyIn("a:{ x:{} x:{} } message:{}", log[1].start, "message")
  {
    PlainWords();
    SpelledOutside();
    SecondOfTwo("a", "message", nodes, log, c);
    assert SeenIn(log)[1].fate == Keep;
  }

  // A table directly in "message" that is replaced.
  lemma InsideButReplaced(nodes: Nodes, log: seq<Visit>, c: Scan)
    requires Quiet("x", nodes) && Balanced(nodes.inter) && Balanced(nodes.intra)
    requires Scanned("message:{ x:{} x:{} } a:{}", "x", nodes, log) == Some(c)
    requires Stops("message:{ x:{} x:{} } a:{}", "x", c, None)
    ensures |log| == 2 && !Kept(log[1]) && DirectlyIn("message:{ x:{} x:{} } a:{}", log[1].start, "message")
  {
    PlainWords();
    SpelledInside();
    SecondOfTwo("message", "a", nodes, log, c);
    assert SeenIn(log)[1].fate == Intra;
    TwoTablesInside("message", "a", 15);
  }

  // A table directly in a sender that lists the nodes within the subsystem.
  lemma SenderWithin(nodes: Nodes, log: seq<Visit>, c: Scan)
    requires Quiet("x", nodes) && Balanced(nodes.inter) && Balanced(nodes.intra)
    requires Scanned("binaryNetOutput:{ x:{} x:{} } a:{}", "x", nodes, log) == Some(c)
    requires Stops("binaryNetOutput:{ x:{} x:{} } a:{}", "x", c, None)
    ensures |log| == 2 && FateOf(log[1]) == Intra && InSender("binaryNetOutput:{ x:{} x:{} } a:{}", log[1].start)
  {
    PlainWords();
    SpelledSender();
    SecondOfTwo("binaryNetOutput", "a", nodes, log, c);
    assert SeenIn(log)[1].fate == Intra;
    TwoTablesInside("binaryNetOutput", "a", 23);
  }
}
