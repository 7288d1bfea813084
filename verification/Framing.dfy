/** The framed stream between an rgang and its parent: pickled results, each announced by a cookie
    line with its length, inside ordinary output.  The parent reads it in arbitrary pieces. */
module Framing {
  import opened Wrappers
  import opened Strings

  type Bytes = string

  const MAGIC: Bytes := "PICKLE:"

  // ----- cookies

  predicate HexDigit(c: char) {
    '0' <= c <= '9' || 'a' <= c <= 'f'
  }

  function DigitValue(c: char): (v: nat)
    requires HexDigit(c)
    ensures v < 16
  {
    if c <= '9' then (c - '0') as nat else 10 + (c - 'a') as nat
  }

  function Digit(v: nat): (c: char)
    requires v < 16
    ensures HexDigit(c) && DigitValue(c) == v
  {
    if v < 10 then '0' + v as char else 'a' + (v - 10) as char
  }

  predicate AllHex(s: Bytes) {
    forall i :: 0 <= i < |s| ==> HexDigit(s[i])
  }

  // int(s, 16)
  function HexValue(s: Bytes): nat
    requires AllHex(s)
  {
    if s == "" then 0 else 16 * HexValue(s[..|s| - 1]) + DigitValue(s[|s| - 1])
  }

  function Power16(k: nat): (r: nat)
    ensures r > 0
  {
    if k == 0 then 1 else 16 * Power16(k - 1)
  }

  // "%0kx" % n
  function Hex(n: nat, k: nat): (s: Bytes)
    requires n < Power16(k)
    ensures |s| == k && AllHex(s) && HexValue(s) == n
  {
    if k == 0 then ""
    else
      var init := Hex(n / 16, k - 1);
      var s := init + [Digit(n % 16)];
      assert s[..|s| - 1] == init;
      s
  }

  function Cookie(n: nat): (c: Bytes)
    requires n < Power16(8)
    ensures |c| == 17
  {
    MAGIC + Hex(n, 8) + ":\n"
  }

  // The k-th character of a cookie.
  predicate CookieChar(k: nat, c: char)
    requires k < 16
  {
    if k < 7 then c == MAGIC[k] else if k < 15 then HexDigit(c) else c == ':'
  }

  predicate IsCookie(p: Bytes) {
    |p| == 16 && forall k :: 0 <= k < 16 ==> CookieChar(k, p[k])
  }

  // The 16 characters of a cookie, without its line end, stand at position i.
  predicate CookieAt(s: Bytes, i: nat) {
    i + 16 <= |s| && IsCookie(s[i..i + 16])
  }

  // The length a cookie announces.
  function Announced(p: Bytes): nat
    requires IsCookie(p)
  {
    assert forall k :: 7 <= k < 15 ==> HexDigit(p[k]);
    HexValue(p[7..15])
  }

  // re_pickle with re.M: the cookie is at the end of a line or of the string.
  predicate MatchAt(s: Bytes, i: nat) {
    CookieAt(s, i) && (i + 16 == |s| || s[i + 16] == '\n')
  }

  // The first match from i on.
  function Search(s: Bytes, i: nat): (r: Option<nat>)
    requires i <= |s|
    ensures r.Some? ==> i <= r.value && MatchAt(s, r.value) && forall j :: i <= j < r.value ==> !MatchAt(s, j)
    ensures r.None? ==> forall j :: i <= j ==> !MatchAt(s, j)
    decreases |s| - i
  {
    if MatchAt(s, i) then Some(i)
    else if i == |s| then None
    else Search(s, i + 1)
  }

  // chk_bytes.rfind(b"P", -16)
  function LastP(s: Bytes, end: nat): (r: Option<nat>)
    requires end <= |s|
    ensures r.Some? ==> |s| <= r.value + 16 && r.value < end && s[r.value] == 'P'
    ensures r.Some? ==> forall j :: r.value < j < end ==> s[j] != 'P'
    ensures r.None? ==> forall j :: 0 <= j < end && |s| <= j + 16 ==> s[j] != 'P'
  {
    if end == 0 || end + 15 < |s| then None
    else if s[end - 1] == 'P' then Some(end - 1)
    else LastP(s, end - 1)
  }

  // The length of the hexadecimal run at the start.
  function HexRun(s: Bytes): (n: nat)
    ensures n <= |s| && AllHex(s[..n]) && (n < |s| ==> !HexDigit(s[n]))
  {
    if s == "" || !HexDigit(s[0]) then 0
    else
      var n := 1 + HexRun(s[1..]);
      assert forall i :: 1 <= i < n ==> s[i] == s[1..][..n - 1][i - 1];
      n
  }

  // Where a cookie that is not complete yet may start, at the end of what has been read.
  function PartialCookie(s: Bytes): (r: Option<nat>)
    ensures r.Some? ==> r.value < |s| <= r.value + 15
  {
    match LastP(s, |s|)
    case None => None
    case Some(i) =>
      var potential := s[i..];
      var head := if |potential| <= 7 then potential else potential[..7];
      if !(head <= MAGIC) then None
      else if |potential| <= 7 then Some(i)
      else
        var run := HexRun(potential[7..]);
        // with 16 characters the program compares a byte with a byte string, which are never the same
        if |potential| <= 15 && run == |potential| - 7 then Some(i) else None
  }

  // ----- the parser

  // `loads` is the part of a payload read so far (empty: none), `need` the payload's length, and
  // `cookie` the withheld start of a cookie.
  datatype State = State(loads: Bytes, need: nat, cookie: Bytes)

  const START := State("", 0, "")

  predicate Valid(st: State) {
    && (st.loads != "" ==> |st.loads| < st.need && st.cookie == "")
    && |st.cookie| <= 16
  }

  datatype Outcome = Outcome(st: State, text: Bytes, frames: seq<Bytes>)

  function Take(s: Bytes, n: nat): Bytes {
    if n <= |s| then s[..n] else s
  }

  function Drop(s: Bytes, n: nat): Bytes {
    if n <= |s| then s[n..] else ""
  }

  // One read: what is passed on as text and which payloads are complete.
  function Feed(st: State, ss: Bytes): (o: Outcome)
    requires Valid(st)
    ensures Valid(o.st)
  {
    if st.loads == "" then FeedText(st.cookie + ss)
    else
      var chk := st.loads + ss;
      if |chk| < st.need then Outcome(State(chk, st.need, ""), "", [])
      else
        var o := FeedText(chk[st.need..]);
        o.(frames := [chk[..st.need]] + o.frames)
  }

  // One turn outside a payload: a payload that is complete and what is left to look at, or the end.
  datatype Turn = Ended(o: Outcome) | Framed(payload: Bytes, left: Bytes)

  // With a cookie at i that announces so much.
  function Cut(chk: Bytes, i: nat, need: nat): (t: Turn)
    requires i + 16 <= |chk|
    ensures if t.Ended? then Valid(t.o.st) else |t.left| < |chk|
  {
    var rest := Drop(chk, i + 17);
    var payload, text := Take(rest, need), chk[..i] + Drop(rest, need);
    if |payload| != need then Ended(Outcome(State(payload, need, ""), text, [])) else Framed(payload, text)
  }

  function Look(chk: Bytes): (t: Turn)
    ensures if t.Ended? then Valid(t.o.st) else |t.left| < |chk|
  {
    match Search(chk, 0)
    case Some(at) =>
      assert Occurs(chk, chk[at..at + 16], at);
      Cut(chk, Find(chk, chk[at..at + 16], 0).value, Announced(chk[at..at + 16]))
    case None =>
      match PartialCookie(chk)
      case Some(i) => Ended(Outcome(State("", 0, chk[i..]), chk[..i], []))
      case None => Ended(Outcome(START, chk, []))
  }

  // All of it.
  function FeedText(chk: Bytes): (o: Outcome)
    ensures Valid(o.st)
    decreases |chk|
  {
    match Look(chk)
    case Ended(o) => o
    case Framed(payload, left) =>
      var o := FeedText(left);
      o.(frames := [payload] + o.frames)
  }

  // Successive reads.
  function FeedAll(st: State, chunks: seq<Bytes>): (o: Outcome)
    requires Valid(st)
    ensures Valid(o.st)
    decreases |chunks|
  {
    if chunks == [] then Outcome(st, "", [])
    else
      var o := Feed(st, chunks[0]);
      var p := FeedAll(o.st, chunks[1..]);
      Outcome(p.st, o.text + p.text, o.frames + p.frames)
  }

  // ----- what is written

  // Ordinary text with frames in it.
  datatype Doc = Tail(text: Bytes) | Frame(text: Bytes, payload: Bytes, rest: Doc)

  ghost predicate Sendable(d: Doc) {
    d.Frame? ==> 0 < |d.payload| < Power16(8) && Sendable(d.rest)
  }

  // pickle_to_stdout writes a cookie line and the payload.
  ghost function Wire(d: Doc): Bytes
    requires Sendable(d)
  {
    match d
    case Tail(t) => t
    case Frame(t, p, rest) => t + Cookie(|p|) + p + Wire(rest)
  }

  ghost function Text(d: Doc): Bytes {
    match d
    case Tail(t) => t
    case Frame(t, _, rest) => t + Text(rest)
  }

  ghost function Payloads(d: Doc): seq<Bytes> {
    match d
    case Tail(_) => []
    case Frame(_, p, rest) => [p] + Payloads(rest)
  }

  // Reads must not end just before or just after the line end of a cookie.  Such places are named
  // by how much of the stream is still to come.
  ghost function BadRests(d: Doc): set<nat>
    requires Sendable(d)
  {
    match d
    case Tail(_) => {}
    case Frame(_, p, rest) => {|p| + |Wire(rest)|, |p| + |Wire(rest)| + 1} + BadRests(rest)
  }

  ghost predicate NoCookie(s: Bytes) {
    forall i :: 0 <= i ==> !CookieAt(s, i)
  }

  // `more` joined to the front of the text.
  ghost function Prepend(more: Bytes, d: Doc): (e: Doc)
    ensures Payloads(e) == Payloads(d)
  {
    match d
    case Tail(t) => Tail(more + t)
    case Frame(t, p, rest) => Frame(more + t, p, rest)
  }

  lemma {:induction false} PrependFacts(more: Bytes, d: Doc)
    requires Sendable(d)
    ensures var e := Prepend(more, d);
            && Sendable(e) && Wire(e) == more + Wire(d) && Text(e) == more + Text(d)
            && Payloads(e) == Payloads(d) && BadRests(e) == BadRests(d)
  {
    match d
    case Tail(t) =>
    case Frame(t, p, rest) =>
      JoinLater(more, t, Cookie(|p|), p, Wire(rest));
      assert more + t + Text(rest) == more + (t + Text(rest));
  }

  lemma JoinLater(a: Bytes, b: Bytes, c: Bytes, d: Bytes, e: Bytes)
    ensures a + b + c + d + e == a + (b + c + d + e)
  {
  }

  lemma NoCookieInParts(s: Bytes, t: Bytes)
    requires NoCookie(s + t)
    ensures NoCookie(s) && NoCookie(t)
  {
    var st := s + t;
    forall i | 0 <= i ensures !CookieAt(s, i) {
      assert !CookieAt(st, i);
      if i + 16 <= |s| { assert st[i..i + 16] == s[i..i + 16]; }
    }
    forall i | 0 <= i ensures !CookieAt(t, i) {
      assert !CookieAt(st, |s| + i);
      if i + 16 <= |t| { assert st[|s| + i..|s| + i + 16] == t[i..i + 16]; }
    }
  }

  // No cookie appears in the text, even if the payloads of some frames are taken for text.
  ghost predicate Robust(d: Doc)
    decreases |Payloads(d)|
  {
    && NoCookie(Text(d))
    && (d.Frame? ==> Robust(Prepend(d.text, d.rest)) && Robust(Prepend("\n" + d.payload, d.rest)))
  }

  lemma {:induction false} RobustSuffix(more: Bytes, d: Doc)
    requires Robust(Prepend(more, d))
    ensures Robust(d)
    decreases |Payloads(d)|
  {
    var e := Prepend(more, d);
    TextOfPrepend(more, d);
    NoCookieInParts(more, Text(d));
    if d.Frame? {
      assert e.Frame? && e.payload == d.payload && e.rest == d.rest;
      assert Prepend(e.text, e.rest) == Prepend(more, Prepend(d.text, d.rest)) by {
        PrependTwice(more, d.text, d.rest);
      }
      RobustSuffix(more, Prepend(d.text, d.rest));
    }
  }

  lemma TextOfPrepend(more: Bytes, d: Doc)
    ensures Text(Prepend(more, d)) == more + Text(d)
  {
    if d.Frame? { assert more + d.text + Text(d.rest) == more + (d.text + Text(d.rest)); }
  }

  lemma PrependTwice(x: Bytes, y: Bytes, d: Doc)
    ensures Prepend(x + y, d) == Prepend(x, Prepend(y, d))
  {
    assert x + y + d.text == x + (y + d.text);
  }

  // ----- finding a cookie in what has been read

  // The line that is written: "PICKLE:", eight hexadecimal digits in lower case, and a colon.
  lemma CookieSpelled(n: nat)
    requires n < Power16(8)
    ensures var c := Cookie(n);
            && c[..7] == "PICKLE:" && c[15..] == ":\n"
            && (forall k :: 7 <= k < 15 ==> c[k] in "0123456789abcdef") && c[14] == "0123456789abcdef"[n % 16]
  {
    var c, h := Cookie(n), Hex(n, 8);
    assert c[14] == h[7] == Digit(n % 16);
    DigitSpelled(n % 16);
    DigitsSpelled(n, 8);
    forall k | 7 <= k < 15 ensures c[k] in "0123456789abcdef" { assert c[k] == h[k - 7]; }
  }

  lemma {:induction false} DigitsSpelled(n: nat, k: nat)
    requires n < Power16(k)
    ensures forall i :: 0 <= i < k ==> Hex(n, k)[i] in "0123456789abcdef"
  {
    if k > 0 {
      DigitsSpelled(n / 16, k - 1);
      DigitSpelled(n % 16);
    }
  }

  lemma DigitSpelled(v: nat)
    requires v < 16
    ensures Digit(v) == "0123456789abcdef"[v]
  {
  }

  lemma CookieShape(n: nat)
    requires n < Power16(8)
    ensures var c := Cookie(n);
            && IsCookie(c[..16]) && Announced(c[..16]) == n && c[16] == '\n'
            && c[0] == 'P' && (forall i :: 1 <= i < 17 ==> c[i] != 'P')
            && c[..7] == MAGIC && c[7..15] == Hex(n, 8)
  {
    var c, h := Cookie(n), Hex(n, 8);
    assert c[7..15] == h == c[..16][7..15];
    forall k | 0 <= k < 16 ensures CookieChar(k, c[..16][k]) {
      if 7 <= k < 15 { assert c[k] == h[k - 7]; }
    }
    forall i | 1 <= i < 17 ensures c[i] != 'P' {
      if 7 <= i < 15 { assert c[i] == h[i - 7]; }
    }
  }

  // In text followed by a 'P', or by nothing, no cookie starts.
  lemma NoneBefore(t: Bytes, chk: Bytes, i: nat)
    requires NoCookie(t) && i < |t|
    requires if |chk| <= |t| then chk <= t else t <= chk && chk[|t|] == 'P'
    ensures !CookieAt(chk, i)
  {
    if i + 16 <= |chk| {
      if i + 16 <= |t| {
        assert chk[i..i + 16] == t[i..i + 16];
        assert !CookieAt(t, i);
      } else {
        assert chk[i..i + 16][|t| - i] == 'P';
      }
    }
  }

  // Text and at most 15 characters of a cookie: nothing is found.
  lemma {:induction false} NothingFound(t: Bytes, n: nat, chk: Bytes)
    requires n < Power16(8) && NoCookie(t) && chk <= t + Cookie(n) && |chk| < |t| + 16
    ensures Search(chk, 0) == None
  {
    CookieShape(n);
    forall i | 0 <= i ensures !MatchAt(chk, i) {
      if i < |t| {
        if |chk| > |t| { assert chk[|t|] == (t + Cookie(n))[|t|]; }
        NoneBefore(t, chk, i);
      }
    }
  }

  // Text, a whole cookie line and more: the cookie is found where it is.
  lemma {:induction false} CookieFound(t: Bytes, n: nat, more: Bytes, chk: Bytes)
    requires n < Power16(8) && NoCookie(t) && chk == t + Cookie(n) + more
    ensures Search(chk, 0) == Some(|t|)
    ensures chk[|t|..|t| + 16] == Cookie(n)[..16]
    ensures Find(chk, chk[|t|..|t| + 16], 0) == Some(|t|)
    ensures chk[..|t|] == t && Drop(chk, |t| + 17) == more
  {
    CookieShape(n);
    Joined(t, Cookie(n), more, chk);
    MatchFound(t, Cookie(n)[..16], chk);
  }

  lemma Joined(t: Bytes, c: Bytes, more: Bytes, chk: Bytes)
    requires |c| == 17 && chk == t + c + more
    ensures t <= chk && chk[..|t|] == t && chk[|t|..|t| + 16] == c[..16] && chk[|t| + 16] == c[16]
    ensures Drop(chk, |t| + 17) == more
  {
  }

  lemma MatchFound(t: Bytes, head: Bytes, chk: Bytes)
    requires NoCookie(t) && IsCookie(head) && t <= chk && |t| + 16 <= |chk| && chk[|t|..|t| + 16] == head
    requires |chk| == |t| + 16 || chk[|t| + 16] == '\n'
    ensures Search(chk, 0) == Some(|t|) && Find(chk, head, 0) == Some(|t|)
  {
    assert CookieChar(0, head[0]) && chk[|t|] == head[0] == 'P';
    assert MatchAt(chk, |t|);
    forall i | 0 <= i < |t| ensures !MatchAt(chk, i) && !Occurs(chk, head, i) {
      NoneBefore(t, chk, i);
    }
    FoundFirst(chk, head, 0, |t|);
  }

  // The beginning of a cookie at the end of what has been read is withheld, no more and no less.
  lemma BeginningWithheld(t: Bytes, n: nat, k: nat, chk: Bytes)
    requires n < Power16(8) && 1 <= k <= 15 && chk == t + Cookie(n)[..k]
    ensures PartialCookie(chk) == Some(|t|) && chk[|t|..] == Cookie(n)[..k]
  {
    CookieShape(n);
    BeginningSeen(t, Cookie(n), k, chk);
  }

  // The characters of a cookie line, without its value.
  ghost predicate Shaped(c: Bytes) {
    && |c| == 17 && c[0] == 'P' && (forall i :: 1 <= i < 17 ==> c[i] != 'P')
    && c[..7] == MAGIC && AllHex(c[7..15])
  }

  lemma BeginningSeen(t: Bytes, c: Bytes, k: nat, chk: Bytes)
    requires Shaped(c) && 1 <= k <= 15 && chk == t + c[..k]
    ensures PartialCookie(chk) == Some(|t|) && chk[|t|..] == c[..k]
  {
    forall j | |t| < j < |chk| ensures chk[j] != 'P' { assert chk[j] == c[j - |t|]; }
    assert chk[|t|] == 'P';
    assert LastP(chk, |chk|) == Some(|t|);
    assert chk[|t|..] == c[..k];
    if k <= 7 { MagicBegins(c, k); } else { DigitsFollow(c, k); }
  }

  // A beginning of a cookie line, up to its digits.
  ghost predicate BeginsCookie(x: Bytes) {
    && 1 <= |x| <= 15
    && forall k :: 0 <= k < |x| ==> if k < 7 then x[k] == "PICKLE:"[k] else x[k] in "0123456789abcdef"
  }

  // That is what is withheld, and nothing else.
  lemma WithheldExactly(s: Bytes, i: nat)
    ensures PartialCookie(s) == Some(i) <==> i < |s| && BeginsCookie(s[i..])
  {
    if i < |s| && BeginsCookie(s[i..]) {
      assert s[i] == s[i..][0] == 'P';
      forall j | i < j < |s| ensures s[j] != 'P' { assert s[j] == s[i..][j - i]; }
      LastPIs(s, |s|, i);
    }
    if LastP(s, |s|) == Some(i) && |s| - i <= 15 { PotentialExactly(s[i..]); }
  }

  lemma {:induction false} LastPIs(s: Bytes, end: nat, i: nat)
    requires i < end <= |s| <= i + 16 && s[i] == 'P' && forall j :: i < j < end ==> s[j] != 'P'
    ensures LastP(s, end) == Some(i)
    decreases end
  {
    if end > i + 1 { LastPIs(s, end - 1, i); }
  }

  // What the tests on the characters behind the last P come to.
  lemma PotentialExactly(x: Bytes)
    requires 1 <= |x| <= 15 && x[0] == 'P'
    ensures BeginsCookie(x) <==>
      (if |x| <= 7 then x else x[..7]) <= MAGIC && (|x| > 7 ==> HexRun(x[7..]) == |x| - 7)
  {
    var head := if |x| <= 7 then x else x[..7];
    assert head <= MAGIC <==> forall k :: 0 <= k < |head| ==> x[k] == "PICKLE:"[k];
    if |x| > 7 { RunExactly(x[7..]); }
  }

  lemma RunExactly(y: Bytes)
    ensures HexRun(y) == |y| <==> forall k :: 0 <= k < |y| ==> HexDigit(y[k])
  {
    var run := HexRun(y);
    assert forall k :: 0 <= k < run ==> y[..run][k] == y[k];
  }

  lemma MagicBegins(c: Bytes, k: nat)
    requires Shaped(c) && k <= 7
    ensures c[..k] <= MAGIC
  {
    assert c[..k] == c[..7][..k];
  }

  lemma DigitsFollow(c: Bytes, k: nat)
    requires Shaped(c) && 7 < k <= 15
    ensures c[..k][..7] == MAGIC && HexRun(c[..k][7..]) == k - 7
  {
    assert c[..k][..7] == c[..7];
    SliceOfSlice(c, 7, 15, k);
    RunOfHex(c[7..15][..k - 7]);
  }

  lemma SliceOfSlice(c: Bytes, a: nat, b: nat, k: nat)
    requires a <= k <= b <= |c|
    ensures c[..k][a..] == c[a..b][..k - a]
  {
  }

  lemma RunOfHex(s: Bytes)
    requires AllHex(s)
    ensures HexRun(s) == |s|
  {
  }

  // ----- one read

  // What is still to be understood: the rest of a document, possibly after the rest of a payload.
  datatype Pending = InText(doc: Doc) | InPayload(payload: Bytes, doc: Doc)

  // The parser's memory and what is still to be read make up what is pending.
  ghost predicate Expects(st: State, future: Bytes, p: Pending)
    requires Sendable(p.doc)
  {
    match p
    case InText(d) => st.loads == "" && st.cookie + future == Wire(d)
    case InPayload(payload, d) =>
      && st.loads != "" && st.cookie == "" && st.need == |payload| && |st.loads| < |payload|
      && st.loads + future == payload + Wire(d)
  }

  ghost function PendingPayloads(p: Pending): seq<Bytes> {
    if p.InText? then Payloads(p.doc) else [p.payload] + Payloads(p.doc)
  }

  // What one read has to achieve.
  ghost predicate Advances(o: Outcome, future: Bytes, p: Pending, q: Pending)
    requires Sendable(p.doc)
  {
    && Sendable(q.doc) && Expects(o.st, future, q)
    && o.text + Text(q.doc) == Text(p.doc)
    && o.frames + PendingPayloads(q) == PendingPayloads(p)
    && BadRests(q.doc) <= BadRests(p.doc)
    && (forall b :: b in BadRests(p.doc) && b <= |future| ==> b in BadRests(q.doc))
    && (Robust(p.doc) ==> Robust(q.doc))
  }

  lemma {:induction false} FeedAdvances(st: State, ss: Bytes, future: Bytes, p: Pending) returns (q: Pending)
    requires Valid(st) && Sendable(p.doc) && Expects(st, ss + future, p)
    requires NoCookie(Text(p.doc)) && |future| !in BadRests(p.doc)
    ensures Advances(Feed(st, ss), future, p, q)
  {
    if p.InText? {
      assert (st.cookie + ss) + future == st.cookie + (ss + future);
      q := TextAdvances(st.cookie + ss, future, p.doc);
    } else {
      var chk, n := st.loads + ss, |p.payload|;
      assert chk + future == st.loads + (ss + future);
      if |chk| < n {
        q := p;
      } else {
        SplitAt(chk, future, p.payload, Wire(p.doc));
        q := TextAdvances(chk[n..], future, p.doc);
        FramesShift(p.payload, FeedText(chk[n..]).frames, PendingPayloads(q));
      }
    }
  }

  // Two ways of cutting one string.
  lemma SplitAt(a: Bytes, b: Bytes, c: Bytes, d: Bytes)
    requires a + b == c + d && |c| <= |a|
    ensures a[..|c|] == c && a[|c|..] + b == d
  {
    assert a[..|c|] == (a + b)[..|c|];
    assert a[|c|..] + b == (a + b)[|c|..];
  }

  lemma FramesShift(x: Bytes, a: seq<Bytes>, b: seq<Bytes>)
    ensures ([x] + a) + b == [x] + (a + b)
  {
  }

  // Nothing found: the read is passed on, but for what is withheld.
  lemma {:induction false} Withholds(chk: Bytes)
    requires Search(chk, 0) == None
    ensures Quiet(FeedText(chk), chk)
    ensures PartialCookie(chk).Some? ==> FeedText(chk).st.cookie == chk[PartialCookie(chk).value..]
  {
    if PartialCookie(chk).Some? { assert chk[..PartialCookie(chk).value] + chk[PartialCookie(chk).value..] == chk; }
  }

  ghost predicate Quiet(o: Outcome, chk: Bytes) {
    o.st.loads == "" && o.frames == [] && o.text + o.st.cookie == chk
  }

  // A cookie found: the payload starts, or is complete and the rest is looked at again.
  lemma {:induction false} Finds(t: Bytes, n: nat, more: Bytes)
    requires n < Power16(8) && NoCookie(t)
    ensures var o := FeedText(t + Cookie(n) + more);
            if |more| < n then o == Outcome(State(more, n, ""), t, [])
            else
              var p := FeedText(t + more[n..]);
              o == Outcome(p.st, p.text, [more[..n]] + p.frames)
  {
    LookFinds(t, n, more);
    FeedsByLook(t + Cookie(n) + more);
  }

  lemma {:induction false} FeedsByLook(chk: Bytes)
    ensures FeedText(chk) == match Look(chk)
                             case Ended(o) => o
                             case Framed(payload, left) =>
                               var p := FeedText(left); Outcome(p.st, p.text, [payload] + p.frames)
  {
  }

  lemma {:induction false} LookFinds(t: Bytes, n: nat, more: Bytes)
    requires n < Power16(8) && NoCookie(t)
    ensures Look(t + Cookie(n) + more)
            == if |more| < n then Ended(Outcome(State(more, n, ""), t, [])) else Framed(more[..n], t + more[n..])
  {
    var chk := t + Cookie(n) + more;
    CookieShape(n);
    CookieFound(t, n, more, chk);
    FoundAt(chk, |t|, n, more);
  }

  lemma LooksAt(chk: Bytes, at: nat, i: nat, announced: nat)
    requires Search(chk, 0) == Some(at) && Find(chk, chk[at..at + 16], 0) == Some(i)
    requires announced == Announced(chk[at..at + 16])
    ensures Look(chk) == Cut(chk, i, announced)
  {
  }

  lemma FoundAt(chk: Bytes, at: nat, n: nat, more: Bytes)
    requires Search(chk, 0) == Some(at) && Find(chk, chk[at..at + 16], 0) == Some(at)
    requires Announced(chk[at..at + 16]) == n && Drop(chk, at + 17) == more
    ensures Look(chk) == if |more| < n then Ended(Outcome(State(more, n, ""), chk[..at], []))
                         else Framed(more[..n], chk[..at] + more[n..])
  {
    LooksAt(chk, at, at, n);
    if |more| < n { assert chk[..at] + "" == chk[..at]; }
  }

  lemma {:induction false} TextAdvances(chk: Bytes, future: Bytes, d: Doc) returns (q: Pending)
    requires Sendable(d) && chk + future == Wire(d)
    requires NoCookie(Text(d)) && |future| !in BadRests(d)
    ensures Advances(FeedText(chk), future, InText(d), q)
    decreases |chk|, 2
  {
    if d.Tail? {
      NoCookieInParts(chk, future);
      assert Search(chk, 0) == None;
      Withholds(chk);
      q := TailAdvances(FeedText(chk), chk, future, d);
    } else {
      NoCookieInParts(d.text, Text(d.rest));
      WireShape(d);
      if |chk| < |d.text| + 16 {
        EarlyShape(d.text, |d.payload|, chk, future, d.payload + Wire(d.rest));
        NothingFound(d.text, |d.payload|, chk);
        Withholds(chk);
        q := EarlyAdvances(FeedText(chk), chk, future, d);
      } else {
        q := CookieAdvances(chk, future, d);
      }
    }
  }

  lemma WireShape(d: Doc)
    requires Sendable(d) && d.Frame?
    ensures Wire(d) == (d.text + Cookie(|d.payload|)) + (d.payload + Wire(d.rest))
  {
  }

  lemma EarlyShape(t: Bytes, n: nat, chk: Bytes, future: Bytes, tail: Bytes)
    requires n < Power16(8) && chk + future == (t + Cookie(n)) + tail && |chk| <= |t| + 17
    ensures chk <= t + Cookie(n)
    ensures future == (t + Cookie(n))[|chk|..] + tail
  {
    assert chk == (chk + future)[..|chk|];
    assert future == (chk + future)[|chk|..];
  }

  lemma {:induction false} CookieAdvances(chk: Bytes, future: Bytes, d: Doc) returns (q: Pending)
    requires Sendable(d) && d.Frame? && chk + future == (d.text + Cookie(|d.payload|)) + (d.payload + Wire(d.rest))
    requires NoCookie(Text(d)) && |future| !in BadRests(d) && |chk| >= |d.text| + 16
    ensures Advances(FeedText(chk), future, InText(d), q)
    decreases |chk|, 1
  {
    var t, n := d.text, |d.payload|;
    PastTheLineEnd(chk, future, d);
    SplitAt(chk, future, t + Cookie(n), d.payload + Wire(d.rest));
    var more := chk[|t + Cookie(n)|..];
    NoCookieInParts(t, Text(d.rest));
    assert chk == t + Cookie(n) + more;
    Finds(t, n, more);
    if |more| < n {
      q := PayloadBegins(FeedText(chk), more, future, d);
    } else {
      SplitAt(more, future, d.payload, Wire(d.rest));
      q := RestAdvances(t, more[n..], future, d);
      FrameDelivered(FeedText(chk), FeedText(t + more[n..]), future, d, q);
    }
  }

  lemma PastTheLineEnd(chk: Bytes, future: Bytes, d: Doc)
    requires Sendable(d) && d.Frame? && chk + future == (d.text + Cookie(|d.payload|)) + (d.payload + Wire(d.rest))
    requires |future| !in BadRests(d) && |chk| >= |d.text| + 16
    ensures |chk| > |d.text| + 17
  {
    assert |chk| + |future| == |d.text| + 17 + |d.payload| + |Wire(d.rest)|;
  }

  lemma {:induction false} RestOnWire(t: Bytes, left: Bytes, future: Bytes, d: Doc)
    requires Sendable(d) && d.Frame? && d.text == t && left + future == Wire(d.rest)
    ensures var e := Prepend(t, d.rest);
            && Sendable(e) && (t + left) + future == Wire(e) && Text(e) == Text(d) && BadRests(e) == BadRests(d.rest)
  {
    PrependFacts(t, d.rest);
    assert (t + left) + future == t + (left + future);
  }

  lemma {:induction false} RestAdvances(t: Bytes, left: Bytes, future: Bytes, d: Doc) returns (q: Pending)
    requires Sendable(d) && d.Frame? && d.text == t && left + future == Wire(d.rest)
    requires NoCookie(Text(d)) && |future| !in BadRests(d)
    ensures Sendable(Prepend(t, d.rest)) && Advances(FeedText(t + left), future, InText(Prepend(t, d.rest)), q)
    decreases |t + left|, 3
  {
    RestOnWire(t, left, future, d);
    q := TextAdvances(t + left, future, Prepend(t, d.rest));
  }

  lemma FrameDelivered(o: Outcome, p: Outcome, future: Bytes, d: Doc, q: Pending)
    requires Sendable(d) && d.Frame? && o == Outcome(p.st, p.text, [d.payload] + p.frames)
    requires Sendable(Prepend(d.text, d.rest)) && Advances(p, future, InText(Prepend(d.text, d.rest)), q)
    requires |future| <= |Wire(d.rest)|
    ensures Advances(o, future, InText(d), q)
  {
    PrependFacts(d.text, d.rest);
    FramesShift(d.payload, p.frames, PendingPayloads(q));
  }

  lemma TailAdvances(o: Outcome, chk: Bytes, future: Bytes, d: Doc) returns (q: Pending)
    requires d.Tail? && chk + future == d.text && Quiet(o, chk)
    ensures Advances(o, future, InText(d), q)
  {
    q := InText(Tail(o.st.cookie + future));
    assert o.text + (o.st.cookie + future) == (o.text + o.st.cookie) + future == Text(d);
    if Robust(d) { NoCookieInParts(o.text, o.st.cookie + future); }
  }

  // The cookie has not been read completely.
  lemma EarlyAdvances(o: Outcome, chk: Bytes, future: Bytes, d: Doc) returns (q: Pending)
    requires Sendable(d) && d.Frame? && |chk| < |d.text| + 16
    requires chk <= d.text + Cookie(|d.payload|)
    requires future == (d.text + Cookie(|d.payload|))[|chk|..] + (d.payload + Wire(d.rest))
    requires Quiet(o, chk) && (PartialCookie(chk).Some? ==> o.st.cookie == chk[PartialCookie(chk).value..])
    ensures Advances(o, future, InText(d), q)
  {
    var w := TextLeft(o, chk, future, d.text, |d.payload|, d.payload + Wire(d.rest));
    q := InText(Frame(w, d.payload, d.rest));
    TextShrinks(o, future, d, w);
  }

  // The text that is not passed on yet: all but what is withheld or still to come.
  lemma TextLeft(o: Outcome, chk: Bytes, future: Bytes, t: Bytes, n: nat, tail: Bytes) returns (w: Bytes)
    requires n < Power16(8) && |chk| < |t| + 16
    requires chk <= t + Cookie(n) && future == (t + Cookie(n))[|chk|..] + tail
    requires Quiet(o, chk) && (PartialCookie(chk).Some? ==> o.st.cookie == chk[PartialCookie(chk).value..])
    ensures o.text + w == t && o.st.cookie + future == w + (Cookie(n) + tail)
  {
    var c := Cookie(n);
    if |chk| <= |t| {
      assert chk == t[..|chk|] && (t + c)[|chk|..] == t[|chk|..] + c;
      w := InsideText(o, chk, t, c, tail);
    } else {
      var k := |chk| - |t|;
      assert chk == t + c[..k] && (t + c)[|chk|..] == c[k..];
      BeginningWithheld(t, n, k, chk);
      w := "";
      InsideCookie(o, t, c, k, tail);
    }
  }

  lemma InsideText(o: Outcome, chk: Bytes, t: Bytes, c: Bytes, tail: Bytes) returns (w: Bytes)
    requires |chk| <= |t| && chk == t[..|chk|] && Quiet(o, chk)
    ensures o.text + w == t && o.st.cookie + ((t[|chk|..] + c) + tail) == w + (c + tail)
  {
    w := o.st.cookie + t[|chk|..];
    assert o.text + w == (o.text + o.st.cookie) + t[|chk|..];
  }

  lemma InsideCookie(o: Outcome, t: Bytes, c: Bytes, k: nat, tail: Bytes)
    requires k <= |c| && o.text + o.st.cookie == t + c[..k] && o.st.cookie == c[..k]
    ensures o.text + "" == t && o.st.cookie + (c[k..] + tail) == "" + (c + tail)
  {
    assert o.text == (o.text + o.st.cookie)[..|t|] == t;
    assert c[..k] + c[k..] == c;
  }

  lemma {:induction false} TextShrinks(o: Outcome, future: Bytes, d: Doc, w: Bytes)
    requires Sendable(d) && d.Frame? && o.st.loads == "" && o.frames == []
    requires o.text + w == d.text && o.st.cookie + future == w + (Cookie(|d.payload|) + (d.payload + Wire(d.rest)))
    ensures Advances(o, future, InText(d), InText(Frame(w, d.payload, d.rest)))
  {
    assert w + (Cookie(|d.payload|) + (d.payload + Wire(d.rest))) == w + Cookie(|d.payload|) + d.payload + Wire(d.rest);
    assert o.text + (w + Text(d.rest)) == (o.text + w) + Text(d.rest);
    if Robust(d) { RobustSuffix(o.text, Frame(w, d.payload, d.rest)); }
  }

  // The read ends inside the payload.
  lemma PayloadBegins(o: Outcome, more: Bytes, future: Bytes, d: Doc) returns (q: Pending)
    requires Sendable(d) && d.Frame? && 0 < |more| < |d.payload| && more + future == d.payload + Wire(d.rest)
    requires o == Outcome(State(more, |d.payload|, ""), d.text, [])
    ensures Advances(o, future, InText(d), q)
  {
    q := InPayload(d.payload, d.rest);
    if Robust(d) { RobustSuffix(d.text, d.rest); }
    assert [] + PendingPayloads(q) == Payloads(d);
  }

  // ----- all reads

  function Concat(chunks: seq<Bytes>): Bytes {
    if chunks == [] then "" else chunks[0] + Concat(chunks[1..])
  }

  // No read ends at a bad place.
  ghost predicate GoodCuts(d: Doc, chunks: seq<Bytes>)
    requires Sendable(d)
  {
    forall k :: 1 <= k <= |chunks| ==> |Concat(chunks[k..])| !in BadRests(d)
  }

  lemma GoodCutsLater(d: Doc, e: Doc, chunks: seq<Bytes>)
    requires Sendable(d) && Sendable(e) && BadRests(e) <= BadRests(d) && chunks != [] && GoodCuts(d, chunks)
    ensures |Concat(chunks[1..])| !in BadRests(d) && GoodCuts(e, chunks[1..])
  {
    forall k | 1 <= k <= |chunks| - 1 ensures |Concat(chunks[1..][k..])| !in BadRests(e) {
      assert chunks[1..][k..] == chunks[k + 1..];
    }
  }

  // A framed stream is understood completely, however it is cut, if no cut is at a bad place.
  lemma RoundTrip(d: Doc, chunks: seq<Bytes>)
    requires Sendable(d) && Concat(chunks) == Wire(d) && NoCookie(Text(d)) && GoodCuts(d, chunks)
    ensures var o := FeedAll(START, chunks);
            && o.frames == Payloads(d) && o.text + o.st.cookie == Text(d)
            && o.st.loads == "" && |o.st.cookie| <= 16
  {
    assert "" + Concat(chunks) == Concat(chunks);
    AllAdvance(START, chunks, InText(d));
  }

  lemma {:induction false} AllAdvance(st: State, chunks: seq<Bytes>, p: Pending)
    requires Valid(st) && Sendable(p.doc) && Expects(st, Concat(chunks), p)
    requires NoCookie(Text(p.doc)) && GoodCuts(p.doc, chunks)
    ensures var o := FeedAll(st, chunks);
            && o.frames == PendingPayloads(p) && o.text + o.st.cookie == Text(p.doc) && o.st.loads == ""
    decreases |chunks|
  {
    if chunks == [] {
      NothingPending(st, p);
    } else {
      var o, later := Feed(st, chunks[0]), FeedAll(Feed(st, chunks[0]).st, chunks[1..]);
      GoodCutsLater(p.doc, p.doc, chunks);
      var q := FeedAdvances(st, chunks[0], Concat(chunks[1..]), p);
      NoCookieInParts(o.text, Text(q.doc));
      GoodCutsLater(p.doc, q.doc, chunks);
      AllAdvance(o.st, chunks[1..], q);
      assert (o.text + later.text) + later.st.cookie == o.text + (later.text + later.st.cookie);
    }
  }

  lemma NothingPending(st: State, p: Pending)
    requires Valid(st) && Sendable(p.doc) && Expects(st, "", p)
    ensures p.InText? && p.doc == Tail(st.cookie) && st.loads == ""
  {
    assert st.cookie + "" == st.cookie && st.loads + "" == st.loads;
  }

  // ----- what a cut at a bad place does

  // A read up to a bad place loses a frame: its payload becomes text.
  ghost predicate Loses(o: Outcome, future: Bytes, p: Pending, q: Pending)
    requires Sendable(p.doc)
  {
    && Sendable(q.doc) && Robust(q.doc) && Expects(o.st, future, q)
    && |o.frames| + |PendingPayloads(q)| < |PendingPayloads(p)|
  }

  lemma FeedLoses(st: State, ss: Bytes, future: Bytes, p: Pending) returns (q: Pending)
    requires Valid(st) && Sendable(p.doc) && Expects(st, ss + future, p)
    requires Robust(p.doc) && |future| in BadRests(p.doc)
    ensures Loses(Feed(st, ss), future, p, q)
  {
    BadRestsShort(p.doc);
    if p.InText? {
      assert (st.cookie + ss) + future == st.cookie + (ss + future);
      q := TextLoses(st.cookie + ss, future, p.doc);
    } else {
      var chk := st.loads + ss;
      assert chk + future == st.loads + (ss + future);
      assert |chk| >= |p.payload|;
      SplitAt(chk, future, p.payload, Wire(p.doc));
      q := TextLoses(chk[|p.payload|..], future, p.doc);
    }
  }

  lemma {:induction false} BadRestsShort(d: Doc)
    requires Sendable(d)
    ensures forall b :: b in BadRests(d) ==> b < |Wire(d)|
  {
    if d.Frame? { BadRestsShort(d.rest); }
  }

  lemma {:induction false} TextLoses(chk: Bytes, future: Bytes, d: Doc) returns (q: Pending)
    requires Sendable(d) && chk + future == Wire(d)
    requires Robust(d) && |future| in BadRests(d)
    ensures Loses(FeedText(chk), future, InText(d), q)
    decreases |chk|, 1
  {
    WireShape(d);
    NoCookieInParts(d.text, Text(d.rest));
    if |future| in BadRests(d.rest) {
      q := LaterFrameLost(chk, future, d);
    } else {
      EarlyShape(d.text, |d.payload|, chk, future, d.payload + Wire(d.rest));
      CookieLost(d.text, |d.payload|, chk);
      q := ThisFrameLost(FeedText(chk), chk, future, d);
    }
  }

  lemma {:induction false} LaterFrameLost(chk: Bytes, future: Bytes, d: Doc) returns (q: Pending)
    requires Sendable(d) && d.Frame? && chk + future == (d.text + Cookie(|d.payload|)) + (d.payload + Wire(d.rest))
    requires Robust(d) && |future| in BadRests(d.rest)
    ensures Loses(FeedText(chk), future, InText(d), q)
    decreases |chk|, 0
  {
    var t, n := d.text, |d.payload|;
    BadRestsShort(d.rest);
    SplitAt(chk, future, t + Cookie(n), d.payload + Wire(d.rest));
    var more := chk[|t + Cookie(n)|..];
    assert chk == t + Cookie(n) + more;
    NoCookieInParts(t, Text(d.rest));
    Finds(t, n, more);
    SplitAt(more, future, d.payload, Wire(d.rest));
    q := RestLoses(t, more[n..], future, d);
    LossDelivered(FeedText(chk), FeedText(t + more[n..]), future, d, q);
  }

  lemma {:induction false} RestLoses(t: Bytes, left: Bytes, future: Bytes, d: Doc) returns (q: Pending)
    requires Sendable(d) && d.Frame? && d.text == t && left + future == Wire(d.rest)
    requires Robust(d) && |future| in BadRests(d.rest)
    ensures Sendable(Prepend(t, d.rest)) && Loses(FeedText(t + left), future, InText(Prepend(t, d.rest)), q)
    decreases |t + left|, 3
  {
    RestOnWire(t, left, future, d);
    q := TextLoses(t + left, future, Prepend(t, d.rest));
  }

  lemma LossDelivered(o: Outcome, p: Outcome, future: Bytes, d: Doc, q: Pending)
    requires Sendable(d) && d.Frame? && o == Outcome(p.st, p.text, [d.payload] + p.frames)
    requires Sendable(Prepend(d.text, d.rest)) && Loses(p, future, InText(Prepend(d.text, d.rest)), q)
    ensures Loses(o, future, InText(d), q)
  {
  }

  lemma ThisFrameLost(o: Outcome, chk: Bytes, future: Bytes, d: Doc) returns (q: Pending)
    requires Sendable(d) && d.Frame? && Robust(d) && o == Outcome(State("", |d.payload|, ""), d.text, [])
    requires |d.text| + 16 <= |chk| <= |d.text| + 17
    requires future == (d.text + Cookie(|d.payload|))[|chk|..] + (d.payload + Wire(d.rest))
    ensures Loses(o, future, InText(d), q)
  {
    CookieShape(|d.payload|);
    if |chk| == |d.text| + 16 {
      assert (d.text + Cookie(|d.payload|))[|chk|..] == "\n";
      assert "" + future == ("\n" + d.payload) + Wire(d.rest);
      q := InText(Prepend("\n" + d.payload, d.rest));
      PrependFacts("\n" + d.payload, d.rest);
    } else {
      assert (d.text + Cookie(|d.payload|))[|chk|..] == "";
      assert "" + future == d.payload + Wire(d.rest);
      q := InText(Prepend(d.payload, d.rest));
      PrependFacts(d.payload, d.rest);
      PrependTwice("\n", d.payload, d.rest);
      RobustSuffix("\n", q.doc);
    }
  }

  // Text and a cookie without its payload: the parser forgets the cookie.
  lemma CookieLost(t: Bytes, n: nat, chk: Bytes)
    requires 0 < n < Power16(8) && NoCookie(t) && t + Cookie(n)[..16] <= chk <= t + Cookie(n)
    ensures FeedText(chk) == Outcome(State("", n, ""), t, [])
  {
    CookieShape(n);
    var c := Cookie(n);
    assert chk[|t|..|t| + 16] == c[..16];
    assert |chk| == |t| + 17 ==> chk[|t| + 16] == (t + c)[|t| + 16];
    MatchFound(t, c[..16], chk);
    assert chk[..|t|] == t && t + "" == t;
  }

  // The frames come out if and only if no read ends at a bad place.
  lemma ExactCondition(d: Doc, chunks: seq<Bytes>)
    requires Sendable(d) && Robust(d) && Concat(chunks) == Wire(d)
    ensures FeedAll(START, chunks).frames == Payloads(d) <==> GoodCuts(d, chunks)
  {
    if GoodCuts(d, chunks) {
      RoundTrip(d, chunks);
    } else {
      assert "" + Concat(chunks) == Concat(chunks);
      AtMost(START, chunks, InText(d));
    }
  }

  // One frame, read up to its cookie's line end and then on: the payload does not come out.
  lemma CutBehindLineEnd(p: Bytes)
    requires 0 < |p| < Power16(8) && NoCookie(p)
    ensures var d, chunks := Frame("", p, Tail("")), [Cookie(|p|), p];
            && Sendable(d) && Concat(chunks) == Wire(d) && Payloads(d) == [p]
            && FeedAll(START, chunks).frames == []
  {
    var c := Cookie(|p|);
    assert c[..16] <= c && "" + c == c;
    CookieLost("", |p|, c);
    TwoReads(START, c, p);
    TextWithoutCookie(p);
    WireOfOne(p);
    assert "" + p == p;
  }

  lemma WireOfOne(p: Bytes)
    requires 0 < |p| < Power16(8)
    ensures Wire(Frame("", p, Tail(""))) == Cookie(|p|) + p
  {
    var c := Cookie(|p|);
    assert "" + c == c && c + p + "" == c + p;
    assert Wire(Tail("")) == "";
  }

  lemma OneRead(st: State, b: Bytes)
    requires Valid(st)
    ensures FeedAll(st, [b]).frames == Feed(st, b).frames && Concat([b]) == b
  {
    assert [b][1..] == [];
    assert FeedAll(Feed(st, b).st, []).frames == [];
    assert Feed(st, b).frames + [] == Feed(st, b).frames && b + "" == b;
  }

  lemma TwoReads(st: State, a: Bytes, b: Bytes)
    requires Valid(st)
    ensures FeedAll(st, [a, b]).frames == Feed(st, a).frames + Feed(Feed(st, a).st, b).frames
    ensures Concat([a, b]) == a + b
  {
    assert [a, b][1..] == [b];
    OneRead(Feed(st, a).st, b);
  }

  lemma TextWithoutCookie(p: Bytes)
    requires NoCookie(p)
    ensures FeedText(p).frames == []
  {
    assert forall i: nat :: !MatchAt(p, i);
  }

  lemma CutBehindLineEndOfX()
    ensures FeedAll(START, [Cookie(1), "x"]).frames == [] && Wire(Frame("", "x", Tail(""))) == Cookie(1) + "x"
  {
    CutBehindLineEnd("x");
  }

  lemma {:induction false} AtMost(st: State, chunks: seq<Bytes>, p: Pending)
    requires Valid(st) && Sendable(p.doc) && Robust(p.doc) && Expects(st, Concat(chunks), p)
    ensures |FeedAll(st, chunks).frames| <= |PendingPayloads(p)|
    ensures !GoodCuts(p.doc, chunks) ==> |FeedAll(st, chunks).frames| < |PendingPayloads(p)|
    decreases |chunks|
  {
    if chunks != [] {
      var o, future := Feed(st, chunks[0]), Concat(chunks[1..]);
      if |future| in BadRests(p.doc) {
        var q := FeedLoses(st, chunks[0], future, p);
        AtMost(o.st, chunks[1..], q);
      } else {
        var q := FeedAdvances(st, chunks[0], future, p);
        AtMost(o.st, chunks[1..], q);
        assert |o.frames + PendingPayloads(q)| == |PendingPayloads(p)|;
        if !GoodCuts(p.doc, chunks) { BadCutStays(p.doc, q.doc, chunks); }
      }
    }
  }

  lemma BadCutStays(d: Doc, e: Doc, chunks: seq<Bytes>)
    requires Sendable(d) && Sendable(e) && chunks != [] && !GoodCuts(d, chunks)
    requires |Concat(chunks[1..])| !in BadRests(d)
    requires forall b :: b in BadRests(d) && b <= |Concat(chunks[1..])| ==> b in BadRests(e)
    ensures !GoodCuts(e, chunks[1..])
  {
    var k :| 1 <= k <= |chunks| && |Concat(chunks[k..])| in BadRests(d);
    assert chunks[1..][k - 1..] == chunks[k..];
    ConcatSuffix(chunks[1..], k - 1);
  }

  lemma {:induction false} ConcatSuffix(chunks: seq<Bytes>, k: nat)
    requires k <= |chunks|
    ensures |Concat(chunks[k..])| <= |Concat(chunks)|
  {
    if k == 0 { assert chunks[0..] == chunks; }
    else {
      assert chunks[1..][k - 1..] == chunks[k..];
      ConcatSuffix(chunks[1..], k - 1);
    }
  }

  // ----- the parser of the source

  function Delivered(frames: seq<Bytes>, o: Outcome): Outcome {
    o.(frames := frames + o.frames)
  }

  lemma {:induction false} PayloadDone(st: State, text: Bytes)
    requires Valid(st) && st.loads != "" && |st.loads + text| >= st.need
    ensures var chk := st.loads + text;
            Feed(st, text) == Delivered([chk[..st.need]], Feed(START, chk[st.need..]))
  {
    var left := (st.loads + text)[st.need..];
    assert "" + left == left;
  }

  lemma {:induction false} CookieDone(st: State, text: Bytes, left: Bytes, payload: Bytes)
    requires Valid(st) && st.loads == "" && Look(st.cookie + text) == Framed(payload, left)
    ensures Feed(st, text) == Delivered([payload], Feed(START, left))
  {
    FeedInText(st, text);
    FeedAtStart(left);
  }

  lemma {:induction false} FeedInText(st: State, text: Bytes)
    requires Valid(st) && st.loads == ""
    ensures Feed(st, text) == FeedText(st.cookie + text)
  {
  }

  lemma {:induction false} FeedAtStart(text: Bytes)
    ensures Feed(START, text) == FeedText(text)
  {
    assert START.cookie + text == text;
  }

  lemma DeliveredNone(o: Outcome)
    ensures Delivered([], o) == o
  {
  }

  lemma DeliveredLast(frames: seq<Bytes>, o: Outcome)
    requires o.frames == []
    ensures Delivered(frames, o) == Outcome(o.st, o.text, frames)
  {
  }

  lemma DeliveredMore(frames: seq<Bytes>, payload: Bytes, o: Outcome)
    ensures Delivered(frames, Delivered([payload], o)) == Delivered(frames + [payload], o)
  {
    assert frames + ([payload] + o.frames) == (frames + [payload]) + o.frames;
  }

  class FrameParser {
    var partLoads: Bytes
    var need: nat
    var partCookie: Bytes

    ghost function View(): State reads this {
      State(partLoads, need, partCookie)
    }

    constructor ()
      ensures View() == START
    {
      partLoads, need, partCookie := "", 0, "";
    }

    // Outside a payload: the next frame, if it is complete, and what is left to look at.
    method LookForCookie(chk: Bytes) returns (text: Bytes, frame: Option<Bytes>)
      requires partLoads == "" && partCookie == ""
      modifies this
      ensures Valid(View())
      ensures frame.None? ==> Look(chk) == Ended(Outcome(View(), text, []))
      ensures frame.Some? ==> View() == START && Look(chk) == Framed(frame.value, text)
    {
      // a length without a part of a payload is never looked at
      need, frame := 0, None;
      var found := Search(chk, 0);
      if found.None? {
        text := HoldBack(chk);
      } else {
        text, frame := TakeFrame(chk, found.value);
      }
    }

    // No cookie: all is text, but for what may be the beginning of one.
    method HoldBack(chk: Bytes) returns (text: Bytes)
      requires partLoads == "" && partCookie == "" && need == 0 && Search(chk, 0) == None
      modifies this
      ensures Valid(View()) && Look(chk) == Ended(Outcome(View(), text, []))
    {
      var partial := PartialCookie(chk);
      if partial.Some? {
        partCookie, text := chk[partial.value..], chk[..partial.value];
      } else {
        text := chk;
      }
    }

    // The payload behind the cookie, if it is complete, and what is left before and behind.
    method TakeFrame(chk: Bytes, at: nat) returns (text: Bytes, frame: Option<Bytes>)
      requires partLoads == "" && partCookie == "" && need == 0 && Search(chk, 0) == Some(at)
      modifies this
      ensures Valid(View())
      ensures frame.None? ==> Look(chk) == Ended(Outcome(View(), text, []))
      ensures frame.Some? ==> View() == START && Look(chk) == Framed(frame.value, text)
    {
      assert Occurs(chk, chk[at..at + 16], at);
      var i := Find(chk, chk[at..at + 16], 0).value;
      var announced := Announced(chk[at..at + 16]);
      LooksAt(chk, at, i, announced);
      var rest := Drop(chk, i + 17);
      var payload := Take(rest, announced);
      text := chk[..i] + Drop(rest, announced);
      if |payload| != announced {
        partLoads, need, frame := payload, announced, None;
      } else {
        frame := Some(payload);
      }
    }

    // In a payload: the payload, if it is complete, and what is left behind it.
    method LookForPayload(more: Bytes) returns (text: Bytes, frame: Option<Bytes>)
      requires Valid(View()) && partLoads != ""
      modifies this
      ensures Valid(View())
      ensures frame.None? <==> |old(partLoads) + more| < old(need)
      ensures frame.None? ==> View() == State(old(partLoads) + more, old(need), "") && text == ""
      ensures frame.Some? ==> View() == START
      ensures frame.Some? ==> frame.value == (old(partLoads) + more)[..old(need)]
      ensures frame.Some? ==> text == (old(partLoads) + more)[old(need)..]
    {
      var chk := partLoads + more;
      partLoads := "";
      if |chk| < need {
        partLoads, text, frame := chk, "", None;
      } else {
        text, frame := chk[need..], Some(chk[..need]);
        need := 0;
      }
    }

    // One turn of the loop: the next payload, if it is complete, and what is left to look at.
    method NextFrame(text: Bytes) returns (left: Bytes, frame: Option<Bytes>)
      requires Valid(View())
      modifies this
      ensures Valid(View())
      ensures frame.None? ==> Feed(old(View()), text) == Outcome(View(), left, [])
      ensures frame.Some? ==> View() == START && |left| < |old(partLoads)| + |old(partCookie)| + |text|
      ensures frame.Some? ==> Feed(old(View()), text) == Delivered([frame.value], Feed(START, left))
    {
      ghost var st := View();
      if partLoads != "" {
        left, frame := LookForPayload(text);
        if frame.Some? { PayloadDone(st, text); }
      } else {
        var chk := partCookie + text;
        partCookie := "";
        left, frame := LookForCookie(chk);
        if frame.Some? { CookieDone(st, text, left, frame.value); }
      }
    }

    // One read: what is left of it as text, and the payloads that are complete.
    method Read(read: Bytes) returns (text: Bytes, frames: seq<Bytes>)
      requires Valid(View())
      modifies this
      ensures Outcome(View(), text, frames) == Feed(old(View()), read)
      ensures Valid(View())
    {
      ghost var st := View();
      ghost var total := Feed(st, read);
      text, frames := read, [];
      DeliveredNone(total);
      while true
        invariant st == View() && Valid(st)
        invariant total == Delivered(frames, Feed(st, text))
        decreases |partLoads| + |partCookie| + |text|
      {
        var left, frame := NextFrame(text);
        if frame.None? {
          DeliveredLast(frames, Feed(st, text));
          text := left;
          return;
        }
        DeliveredMore(frames, frame.value, Feed(START, left));
        st, text, frames := START, left, frames + [frame.value];
      }
    }
  }
}
