/** Breaking a message into lines. */
module Paragraph {
  import opened Wrappers
  import opened Strings

  const WIDTH: nat := 75

  // Only white space differs, and only by a blank or a line end in its place.
  ghost predicate SameButSpace(s: string, t: string) {
    |s| == |t| && forall i :: 0 <= i < |s| && t[i] != s[i] ==> Space(s[i]) && (t[i] == ' ' || t[i] == '\n')
  }

  // White space among the n characters from i on.
  ghost predicate SpaceFrom(s: string, i: nat, n: nat) {
    exists j :: i <= j < i + n && j < |s| && Space(s[j])
  }

  // Every stretch of 75 characters has white space in it.
  ghost predicate Breakable(s: string) {
    forall i {:trigger SpaceFrom(s, i, 75)} :: 0 <= i && i + 75 <= |s| ==> SpaceFrom(s, i, 75)
  }

  // A line end among the 76 characters from i on, and before `end`.
  ghost predicate LineEndFrom(t: string, i: nat, end: nat) {
    exists j :: i <= j <= i + 75 && j < end && j < |t| && t[j] == '\n'
  }

  // No line is longer than 75 characters.
  ghost predicate ShortLines(t: string) {
    forall i {:trigger LineEndFrom(t, i, |t|)} :: 0 <= i && i + 75 < |t| ==> LineEndFrom(t, i, |t|)
  }

  // s.replace("\n", " ")
  function OneLine(s: string): (t: string)
    ensures SameButSpace(s, t) && (forall i :: 0 <= i < |t| ==> t[i] != '\n' && (Space(t[i]) <==> Space(s[i])))
  {
    seq(|s|, i requires 0 <= i < |s| => if s[i] == '\n' then ' ' else s[i])
  }

  // Lines are short up to and including the last line end, just before `end`.
  ghost predicate ShortUpTo(t: string, end: nat) {
    forall a :: 0 <= a < end ==> LineEndFrom(t, a, end)
  }

  // Line end set at index.
  function Broken(t: string, index: nat): (u: string)
    requires index < |t|
    ensures |u| == |t| && forall i :: 0 <= i < |t| ==> u[i] == if i == index then '\n' else t[i]
  {
    t[..index] + "\n" + t[index + 1..]
  }

  lemma OneMoreLine(t: string, end: nat, index: nat)
    requires end <= index <= end + WIDTH && index < |t| && ShortUpTo(t, end)
    ensures ShortUpTo(Broken(t, index), index + 1)
  {
    var u, after := Broken(t, index), index + 1;
    forall a | 0 <= a < after ensures LineEndFrom(u, a, after) {
      if a < end {
        assert LineEndFrom(t, a, end);
        var j :| a <= j <= a + WIDTH && j < end && j < |t| && t[j] == '\n';
        assert u[j] == '\n';
      } else {
        assert u[index] == '\n';
      }
    }
  }

  // The last line is short, too.
  lemma LastLine(t: string, end: nat)
    requires |t| <= end + WIDTH && ShortUpTo(t, end)
    ensures ShortLines("\n" + t)
  {
    var r := "\n" + t;
    forall i {:trigger LineEndFrom(r, i, |r|)} | 0 <= i && i + WIDTH < |r| ensures LineEndFrom(r, i, |r|) {
      if i == 0 {
        assert r[0] == '\n';
      } else {
        assert LineEndFrom(t, i - 1, end);
        var j :| i - 1 <= j <= i - 1 + WIDTH && j < end && j < |t| && t[j] == '\n';
        assert r[j + 1] == '\n';
      }
    }
  }

  // Just past the last line end that was set, when the next is to be set no later than `at`.
  function LineStart(at: nat, first: bool): nat
    requires at >= WIDTH
  {
    if first then 0 else at - WIDTH + 1
  }

  // Between turns of the loop: `at` is 75 characters past the last line end that was set.
  ghost predicate Between(s: string, t: string, at: nat, first: bool, forwards: bool) {
    && SameButSpace(s, t) && (forall i :: 0 <= i < |t| ==> Space(t[i]) == Space(s[i]))
    && at >= WIDTH
    && (if first then at == WIDTH && !forwards
        else at - WIDTH < |t| && t[at - WIDTH] == '\n' && SpaceFrom(s, 0, WIDTH + 1))
    && (Breakable(s) ==> !forwards && ShortUpTo(t, LineStart(at, first)))
  }

  // One turn of the loop, once the place for the line end is found.
  lemma Turn(s: string, t: string, at: nat, first: bool, forwards: bool, index: nat)
    requires Between(s, t, at, first, forwards) && at < |t| && index < |t| && Space(t[index])
    requires if forwards then at <= index else index <= at && forall i :: index < i <= at ==> !Space(t[i])
    ensures Between(s, Broken(t, index), index + WIDTH, false, forwards || (!first && index + WIDTH == at))
    ensures !forwards ==> index + WIDTH >= at || first
  {
    if first { assert Space(s[index]); }
    if Breakable(s) {
      NextSpace(s, t, LineStart(at, first), at, index);
      OneMoreLine(t, LineStart(at, first), index);
    }
  }

  // In a breakable text there is white space between the last line end and `at`.
  lemma NextSpace(s: string, t: string, start: nat, at: nat, index: nat)
    requires Breakable(s) && |s| == |t| && forall i :: 0 <= i < |t| ==> Space(t[i]) == Space(s[i])
    requires start + WIDTH <= at + 1 && at < |t|
    requires index <= at && forall i :: index < i <= at ==> !Space(t[i])
    ensures start <= index
  {
    assert SpaceFrom(s, start, WIDTH);
    var j :| start <= j < start + WIDTH && j < |s| && Space(s[j]);
    assert Space(t[j]);
  }

  // None where the program's assertion fails.
  method MakeParagraph(userString: string) returns (r: Option<string>)
    ensures r == None <==> |userString| > 75 && !SpaceFrom(userString, 0, 76)
    ensures r.Some? ==> |r.value| == |userString| + 1 && r.value[0] == '\n' && SameButSpace(userString, r.value[1..])
    ensures r.Some? && Breakable(userString) ==> ShortLines(r.value)
  {
    var t := OneLine(userString);
    var at: nat, previous: int, forwards := WIDTH, -1, false;
    while |t| - at > 0
      invariant previous == -1 || previous == at
      invariant Between(userString, t, at, previous == -1, forwards)
      decreases if previous == -1 then 1 else 0, if forwards then 0 else 1, |t| - at
    {
      var index;
      if !forwards {
        index := SpaceBefore(t, at);
        if index < 0 {
          return None;
        }
      } else {
        index := SpaceAfter(t, at);
        if index == |t| {
          return Some("\n" + t);
        }
      }
      Turn(userString, t, at, previous == -1, forwards, index);
      t := Broken(t, index);
      at := index + WIDTH;
      if previous == at {
        forwards := true;
      }
      previous := at;
    }
    if Breakable(userString) { LastLine(t, LineStart(at, previous == -1)); }
    r := Some("\n" + t);
  }

  method SpaceBefore(t: string, at: nat) returns (index: int)
    requires at < |t|
    ensures -1 <= index <= at && (index >= 0 ==> Space(t[index])) && forall i :: index < i <= at ==> !Space(t[i])
  {
    index := at;
    while index >= 0 && !Space(t[index])
      invariant -1 <= index <= at && forall i :: index < i <= at ==> !Space(t[i])
    {
      index := index - 1;
    }
  }

  method SpaceAfter(t: string, at: nat) returns (index: int)
    requires at < |t|
    ensures at <= index <= |t| && (index < |t| ==> Space(t[index])) && forall i :: at <= i < index ==> !Space(t[i])
  {
    index := at;
    while index < |t| && !Space(t[index])
      invariant at <= index <= |t| && forall i :: at <= i < index ==> !Space(t[i])
    {
      index := index + 1;
    }
  }
}
