/** Brace-balanced text: putting pieces together and swapping them keeps it balanced. */
module FhiclBraces {
  import opened Wrappers
  import opened Strings
  import opened FhiclSearch

  // Balanced text in the place of balanced text.
  lemma BalancedSwap(a: string, x: string, y: string, b: string)
    requires Balanced(a + x + b) && Balanced(x) && Balanced(y)
    ensures Balanced(a + y + b)
  {
    NetOfThree(a, x, b);
    NetOfThree(a, y, b);
    forall k | 0 <= k <= |a + y + b| ensures Net((a + y + b)[..k]) >= 0 {
      if k <= |a| {
        assert (a + y + b)[..k] == a[..k] == (a + x + b)[..k];
      } else if k <= |a| + |y| {
        assert (a + y + b)[..k] == a + y[..k - |a|];
        NetJoin(a, y[..k - |a|]);
        assert (a + x + b)[..|a|] == a;
      } else {
        var i := k - |a| - |y|;
        assert (a + y + b)[..k] == a + y + b[..i] && (a + x + b)[..|a| + |x| + i] == a + x + b[..i];
        NetOfThree(a, y, b[..i]);
        NetOfThree(a, x, b[..i]);
        assert Net((a + x + b)[..|a| + |x| + i]) >= 0;
      }
    }
  }

  lemma NetOfThree(a: string, x: string, b: string)
    ensures Net(a + x + b) == Net(a) + Net(x) + Net(b)
  {
    NetJoin(a + x, b);
    NetJoin(a, x);
  }

  lemma BalancedJoin(a: string, b: string)
    requires Balanced(a) && Balanced(b)
    ensures Balanced(a + b)
  {
    NetJoin(a, b);
    forall k | 0 <= k <= |a + b| ensures Net((a + b)[..k]) >= 0 {
      if k <= |a| {
        assert (a + b)[..k] == a[..k];
      } else {
        assert (a + b)[..k] == a + b[..k - |a|];
        NetJoin(a, b[..k - |a|]);
      }
    }
  }

  // Text without braces, then a brace that is closed at the end.
  lemma TableIsBalanced(x: string, b: nat)
    requires b < |x| && (forall k :: 0 <= k < b ==> Weight(x[k]) == 0) && Closes(x, b, |x| - 1)
    ensures Balanced(x)
  {
    forall k | 0 <= k <= |x| ensures Net(x[..k]) >= 0 && (k == |x| ==> Net(x[..k]) == 0) {
      if k <= b {
        NoWeight(x[..k]);
      } else {
        assert x[..k] == x[..b] + x[b..k];
        NetJoin(x[..b], x[b..k]);
        NoWeight(x[..b]);
      }
    }
    assert x[..|x|] == x;
  }

  lemma VisitedIsBalanced(s: string, name: string, i: nat)
    requires Word(name) && TableRange(s, name, i).Between?
    ensures var r := TableRange(s, name, i); Balanced(s[r.start..r.end])
  {
    var r := TableRange(s, name, i);
    var x, b := s[r.start..r.end], BraceOf(s, name, r.start).value;
    RangeIsMatched(s, name, i);
    NoBraceBetween(s, r.start + |name|, false);
    assert s[r.start..r.start + |name|] == name;
    forall k | 0 <= k < b - r.start ensures Weight(x[k]) == 0 {
      if k < |name| { assert x[k] == name[k]; }
    }
    ClosesShift(s, r.start, b, r.end);
    TableIsBalanced(x, b - r.start);
  }

  lemma ClosesShift(s: string, a: nat, b: nat, e: nat)
    requires a <= b < e <= |s| && Closes(s, b, e - 1)
    ensures Closes(s[a..e], b - a, e - 1 - a)
  {
    var x, i := s[a..e], b - a;
    Within(s, a, e, i, e - a);
    forall k | i < k <= e - 1 - a ensures Net(x[i..k]) > 0 {
      Within(s, a, e, i, k);
    }
  }

  lemma Within(s: string, a: nat, e: nat, i: nat, j: nat)
    requires a <= e <= |s| && i <= j <= e - a
    ensures s[a..e][i..j] == s[a + i..a + j]
  {
    var x, y := s[a..e][i..j], s[a + i..a + j];
    assert |x| == |y| && forall k :: 0 <= k < |x| ==> x[k] == y[k];
  }

  lemma BalancedPlain(s: string)
    requires forall k :: 0 <= k < |s| ==> Weight(s[k]) == 0
    ensures Balanced(s)
  {
    NoWeight(s);
    forall k | 0 <= k <= |s| ensures Net(s[..k]) == 0 { NoWeight(s[..k]); }
  }

  lemma PaddedIsBalanced(text: string)
    requires Balanced(text)
    ensures Balanced(" \n" + text + "\n ")
  {
    BalancedPlain(" \n");
    BalancedPlain("\n ");
    BalancedJoin(" \n", text);
    BalancedJoin(" \n" + text, "\n ");
  }

  lemma BracedIsBalanced(text: string)
    requires Balanced(text)
    ensures Balanced(Braced(" \n" + text + "\n ") + " \n")
  {
    PaddedIsBalanced(text);
    BracesAround(" \n" + text + "\n ");
    BalancedPlain(" \n");
    BalancedJoin(Braced(" \n" + text + "\n "), " \n");
  }

  function Braced(s: string): string {
    "{" + s + "}"
  }

  lemma BracesAround(s: string)
    requires Balanced(s)
    ensures Balanced(Braced(s))
  {
    var x := Braced(s);
    assert x[..|x|] == x && Net("{") == 1 && Net("}") == -1 by { assert "{"[..0] == "" && "}"[..0] == ""; }
    forall k | 0 <= k <= |x| ensures Net(x[..k]) >= 0 {
      if 1 <= k <= |s| + 1 {
        assert x[..k] == "{" + s[..k - 1];
        NetJoin("{", s[..k - 1]);
      } else if k > 0 {
        assert x[..k] == x;
        NetOfThree("{", s, "}");
      }
    }
    NetOfThree("{", s, "}");
  }

  lemma BracedCloses(a: string, x: string, c: string)
    requires Balanced(x)
    ensures Closes(a + Braced(x) + c, |a|, |a| + |x| + 1)
  {
    var s, b := a + Braced(x) + c, |a|;
    BracesAround(x);
    assert s[b..b + |x| + 2] == Braced(x);
    forall k | b < k <= b + |x| + 1 ensures Net(s[b..k]) > 0 {
      assert s[b..k] == "{" + x[..k - b - 1];
      NetJoin("{", x[..k - b - 1]);
      assert "{"[..0] == "";
    }
  }

  lemma ClosesOnce(s: string, b: nat, e: nat)
    requires b < |s| && s[b] == '{' && Closes(s, b, e)
    ensures Closing(s, b) == Some(e)
  {
    ClosingCloses(s, b);
    assert Net(s[b..e + 1]) == 0;
    if Closing(s, b).Some? {
      var d := Closing(s, b).value;
      assert Net(s[b..d + 1]) == 0;
    }
  }
}
