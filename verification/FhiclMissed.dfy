/** Documents in which the rewriting loop misses a table, since the one before it is longer than its
    replacement. */
module FhiclMissed {
  import opened Wrappers
  import opened Strings
  import opened FhiclSearch
  import opened FhiclBraces
  import opened FhiclRewrite
  import opened FhiclEnclosing
  import opened FhiclForeseen
  import opened FhiclMisjudged

  // A table x that holds the text f, and an empty one behind it.
  function LongTable(f: string): string {
    "x:{" + f + "} x:{}"
  }

  ghost predicate Filler(f: string) {
    forall i :: 0 <= i < |f| ==> f[i] != 'x' && f[i] != ':' && Weight(f[i]) == 0
  }

  lemma LongTableText(f: string, k: nat)
    requires k < |LongTable(f)|
    ensures var s, n := LongTable(f), |f|;
            && |s| == n + 9
            && (k < 3 ==> s[k] == "x:{"[k])
            && (3 <= k < n + 3 ==> s[k] == f[k - 3])
            && (n + 3 <= k ==> s[k] == "} x:{}"[k - n - 3])
  {
  }

  lemma LongTableMentions(f: string, k: nat)
    requires Filler(f)
    ensures Occurs(LongTable(f), "x", k) <==> k == 0 || k == |f| + 5
  {
    if k < |LongTable(f)| {
      LongTableText(f, k);
      assert LongTable(f)[k..k + 1] == [LongTable(f)[k]];
    }
  }

  // The first table and the blank behind it are balanced, and so is the whole.
  lemma LongTableBalanced(f: string)
    requires Filler(f)
    ensures Balanced(LongTable(f)) && Balanced(LongTable(f)[..|f| + 5])
  {
    BalancedPlain(f);
    BracesAround(f);
    BracesAround("");
    BalancedPlain("");
    BalancedPlain("x:");
    BalancedPlain(" ");
    var first := "x:" + Braced(f);
    BalancedJoin("x:", Braced(f));
    BalancedJoin(first, " ");
    BalancedJoin("x:", Braced(""));
    BalancedJoin(first + " ", "x:" + Braced(""));
    assert LongTable(f) == (first + " ") + ("x:" + Braced(""));
    assert LongTable(f)[..|f| + 5] == first + " ";
  }

  lemma FirstRange(f: string)
    requires Filler(f)
    ensures TableRange(LongTable(f), "x", 0) == Between(0, |f| + 4)
  {
    var s := LongTable(f);
    LongTableMentions(f, 0);
    BalancedPlain(f);
    BracedCloses("x:", f, " x:{}");
    assert s == "x:" + Braced(f) + " x:{}";
    ClosesOnce(s, 2, |f| + 3);
    assert AfterName(s, 2, true) == Some(2);
    assert BraceOf(s, "x", 0) == Some(2);
    FirstTableIs(s, "x", 0, Some(0));
  }

  lemma SecondRange(f: string, i: nat)
    requires Filler(f) && 0 < i
    ensures TableRange(LongTable(f), "x", i) == if i <= |f| + 5 then Between(|f| + 5, |f| + 9) else Nowhere
  {
    var s, a := LongTable(f), |f| + 5;
    forall k: nat | 0 < k && k != a ensures !TableAt(s, "x", k) {
      LongTableMentions(f, k);
      NoTableWithoutMention(s, "x", k);
    }
    SecondBrace(f);
    FirstTableIs(s, "x", i, if i <= a then Some(a) else None);
  }

  lemma SecondBrace(f: string)
    requires Filler(f)
    ensures var s, a := LongTable(f), |f| + 5; TableAt(s, "x", a) && RangeOf(s, "x", a) == Between(a, a + 4)
  {
    var s, a := LongTable(f), |f| + 5;
    LongTableMentions(f, a);
    assert s[a + 1] == ':' && s[a + 2] == '{' && s[a + 3] == '}';
    assert AfterName(s, a + 2, true) == Some(a + 2);
    assert BraceOf(s, "x", a) == Some(a + 2);
  }

  // Neither table is in another one, and the last key of the document is x.
  lemma NothingAround(f: string, from: nat, m: nat)
    requires Filler(f) && from <= m && (m == 0 || m == |f| + 5)
    ensures NoneOpen(LongTable(f), from, m)
  {
    var s := LongTable(f);
    LongTableBalanced(f);
    forall k | from <= k <= m ensures Net(s[k..m]) <= 0 {
      if m == 0 {
        assert s[k..m] == "";
      } else {
        SuffixNets(s[..m], k);
        assert s[..m][k..] == s[k..m];
      }
    }
  }

  lemma LongTableTidy(f: string)
    requires Filler(f)
    ensures Tidy(LongTable(f), "x")
  {
    var s := LongTable(f);
    forall m: nat, o: nat | Occurs(s, "x", m) ensures !InnermostOpen(s, 0, m, o) {
      LongTableMentions(f, m);
      NothingAround(f, 0, m);
      NotInnermost(s, 0, m, o);
    }
  }

  lemma NotInnermost(s: string, i: nat, m: nat, o: nat)
    requires NoneOpen(s, i, m)
    ensures !InnermostOpen(s, i, m, o)
  {
  }

  lemma LongTableLast(f: string, u: string)
    requires Filler(f) && Word(u)
    ensures LastKeyIs(LongTable(f), u) <==> u == "x"
  {
    var s, a := LongTable(f), |f| + 5;
    assert s[a + 1] == ':' && s[a + 2] == '{' && s[a + 3] == '}';
    LastColonIs(s, |s| - 1, a + 1);
    assert s[a..a + 1] == "x" && s[a - 1] == ' ';
    OneLastKey(s, "x", a, a + 1, u);
  }

  lemma JudgedWithin(f: string, from: nat, m: nat)
    requires Filler(f) && ((from == m == 0) || (0 < from <= m == |f| + 5))
    ensures JudgedFate(LongTable(f), "x", from) == Intra
  {
    var s := LongTable(f);
    LongTableMentions(f, m);
    forall k: nat | from <= k < m ensures !Occurs(s, "x", k) { LongTableMentions(f, k); }
    FoundFirst(s, "x", from, m);
    NothingAround(f, from, m);
    forall u | Asked(u) ensures JudgedIn(s, "x", u, from) <==> u == "x" {
      XIsForeign();
      AskedWords("x", u);
      LongTableLast(f, u);
    }
    FateOfAsked(s, from, "x");
  }

  // Where the search goes on after the first table.
  lemma LongResumed(f: string, nodes: Nodes)
    requires Filler(f)
    ensures var n := |f|;
            Resumed(LongTable(f), "x", nodes, 0, 0, n + 4)
            == if n > 8 + |nodes.intra| then 2 * n - 4 - |nodes.intra| else n + 4
  {
    JudgedWithin(f, 0, 0);
    assert |Filled("x", nodes.intra)| == 12 + |nodes.intra|;
  }

  lemma LongForeseen(f: string, nodes: Nodes)
    requires Filler(f)
    ensures var n := |f|;
            Foreseen(LongTable(f), "x", nodes, 0)
            == [Seen(0, n + 4, Intra)] + if n > 9 + |nodes.intra| then [] else [Seen(n + 5, n + 9, Intra)]
  {
    var s, n := LongTable(f), |f|;
    FirstRange(f);
    JudgedWithin(f, 0, 0);
    LongResumed(f, nodes);
    var next := Resumed(s, "x", nodes, 0, 0, n + 4);
    SecondRange(f, next);
    if n <= 9 + |nodes.intra| {
      JudgedWithin(f, next, n + 5);
      ShortForeseen(s, nodes, next, n + 5);
      SecondRange(f, n + 9);
    }
  }

  lemma LongTables(f: string)
    requires Filler(f)
    ensures Tables(LongTable(f), "x", 0) == [(0, |f| + 4), (|f| + 5, |f| + 9)]
  {
    var s, n := LongTable(f), |f|;
    FirstRange(f);
    SecondRange(f, n + 4);
    SecondRange(f, n + 9);
    assert Tables(s, "x", n + 9) == [];
    assert Tables(s, "x", n + 4) == [(n + 5, n + 9)];
  }

  // The second table is missed exactly if the first is longer than its replacement and one character more.
  lemma SecondMissedExactly(f: string, nodes: Nodes, log: seq<Visit>, c: Scan)
    requires Filler(f) && Quiet("x", nodes) && Balanced(nodes.inter) && Balanced(nodes.intra)
    requires Scanned(LongTable(f), "x", nodes, log) == Some(c) && Stops(LongTable(f), "x", c, None)
    ensures |Tables(LongTable(f), "x", 0)| == 2 && |log| == if |f| > 9 + |nodes.intra| then 1 else 2
  {
    LongTableBalanced(f);
    LongTableTidy(f);
    XIsForeign();
    RunAsForeseen(LongTable(f), "x", nodes, log, c);
    LongForeseen(f, nodes);
    LongTables(f);
  }

  lemma TenAreFiller()
    ensures Filler("yyyyyyyyyy") && |"yyyyyyyyyy"| == 10
  {
    var f := "yyyyyyyyyy";
    assert |f| == 10;
    assert f[0] == f[1] == f[2] == f[3] == f[4] == f[5] == f[6] == f[7] == f[8] == f[9] == 'y';
  }

  lemma NothingIsQuiet()
    ensures Quiet("x", Nodes("", "")) && Balanced("")
  {
    BalancedPlain("");
  }

  // With no nodes to list, a table that holds ten characters hides the next one.
  lemma TenHideTheNext(log: seq<Visit>, c: Scan)
    requires Scanned("x:{yyyyyyyyyy} x:{}", "x", Nodes("", ""), log) == Some(c)
    requires Stops("x:{yyyyyyyyyy} x:{}", "x", c, None)
    ensures |log| == 1 && |Tables("x:{yyyyyyyyyy} x:{}", "x", 0)| == 2
  {
    TenAreFiller();
    NothingIsQuiet();
    TenSpelled();
    SecondMissedExactly("yyyyyyyyyy", Nodes("", ""), log, c);
  }

  lemma TenSpelled()
    ensures LongTable("yyyyyyyyyy") == "x:{yyyyyyyyyy} x:{}"
  {
  }
}
