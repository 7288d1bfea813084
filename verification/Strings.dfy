/** White space, and searching for a piece of text. */
module Strings {
  import opened Wrappers

  predicate Space(c: char) {
    c == ' ' || '\t' <= c <= '\r'
  }

  // The white space of ASCII.
  lemma SpaceExactly(c: char)
    ensures Space(c) <==> c in " \t\n\r" || c as int == 11 || c as int == 12
  {
  }

  predicate Occurs(s: string, piece: string, i: nat) {
    i + |piece| <= |s| && s[i..i + |piece|] == piece
  }

  // s.find(piece, i)
  function Find(s: string, piece: string, i: nat): (r: Option<nat>)
    ensures r.Some?
            ==> i <= r.value && Occurs(s, piece, r.value) && forall j :: i <= j < r.value ==> !Occurs(s, piece, j)
    ensures r.None? ==> forall j :: i <= j ==> !Occurs(s, piece, j)
    decreases |s| - i
  {
    if Occurs(s, piece, i) then Some(i)
    else if i >= |s| then None
    else Find(s, piece, i + 1)
  }

  lemma FoundFirst(s: string, piece: string, i: nat, at: nat)
    requires i <= at && Occurs(s, piece, at) && forall j :: i <= j < at ==> !Occurs(s, piece, j)
    ensures Find(s, piece, i) == Some(at)
  {
  }

  lemma CharOf(s: string, piece: string, i: nat, k: nat)
    requires k < |piece|
    ensures Occurs(s, piece, i) ==> s[i + k] == piece[k]
  {
    if Occurs(s, piece, i) { assert s[i..i + |piece|][k] == s[i + k]; }
  }
}
