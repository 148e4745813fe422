/** Regular-expression substitution over any matcher: scan from left to right, replace each match
  and go on after it. */
module Substitution {
  import opened Options

  // Where the match that begins at a position ends, if one does.
  type Matcher = (string, nat) -> Option<nat>

  // A non-empty match.
  predicate Found(m: Matcher, s: string, i: nat) {
    m(s, i).Some? && i < m(s, i).value <= |s|
  }

  function Sub(m: Matcher, s: string, i: nat, mark: string): string
    requires i <= |s|
    decreases |s| - i
  {
    if Found(m, s, i) then mark + Sub(m, s, m(s, i).value, mark)
    else if i < |s| then [s[i]] + Sub(m, s, i + 1, mark)
    else ""
  }

  // A text as it is read from left to right: whole matches, and single characters where none begins.
  datatype Piece = Kept(text: string) | Secret(text: string)

  function Original(pieces: seq<Piece>): string {
    if pieces == [] then "" else pieces[0].text + Original(pieces[1..])
  }

  function Redacted(pieces: seq<Piece>, mark: string): string {
    if pieces == [] then ""
    else (if pieces[0].Secret? then mark else pieces[0].text) + Redacted(pieces[1..], mark)
  }

  predicate Reads(m: Matcher, s: string, i: nat, pieces: seq<Piece>)
    requires i <= |s|
    decreases |pieces|
  {
    if pieces == [] then i == |s|
    else
      var e := i + |pieces[0].text|;
      && i < e <= |s| && pieces[0].text == s[i..e]
      && (if pieces[0].Secret? then m(s, i) == Some(e) else e == i + 1 && !Found(m, s, i))
      && Reads(m, s, e, pieces[1..])
  }

  lemma {:induction false} SubReads(m: Matcher, s: string, i: nat, mark: string) returns (pieces: seq<Piece>)
    requires i <= |s|
    ensures Reads(m, s, i, pieces) && Redacted(pieces, mark) == Sub(m, s, i, mark)
    decreases |s| - i
  {
    if i == |s| {
      pieces := [];
    } else {
      var first, e := FirstPiece(m, s, i);
      var rest := SubReads(m, s, e, mark);
      pieces := [first] + rest;
      assert pieces[1..] == rest;
    }
  }

  lemma {:induction false} FirstPiece(m: Matcher, s: string, i: nat) returns (p: Piece, e: nat)
    requires i < |s|
    ensures i < e <= |s| && p.text == s[i..e]
    ensures if p.Secret? then m(s, i) == Some(e) else e == i + 1 && p.text == [s[i]] && !Found(m, s, i)
  {
    if Found(m, s, i) {
      e := m(s, i).value;
      p := Secret(s[i..e]);
    } else {
      e := i + 1;
      p := Kept(s[i..e]);
    }
  }

  // There is only one way to read a text.
  lemma {:induction false} ReadsSub(m: Matcher, s: string, i: nat, pieces: seq<Piece>, mark: string)
    requires i <= |s| && Reads(m, s, i, pieces)
    ensures Redacted(pieces, mark) == Sub(m, s, i, mark)
    decreases |pieces|
  {
    if pieces == [] {
    } else {
      ReadsSub(m, s, i + |pieces[0].text|, pieces[1..], mark);
    }
  }

  // The pieces make up the text again, each replaced one a match where it stands.
  lemma {:induction false} PiecesOfText(m: Matcher, s: string, i: nat, pieces: seq<Piece>)
    requires i <= |s| && Reads(m, s, i, pieces)
    ensures Original(pieces) == s[i..]
    decreases |pieces|
  {
    if pieces == [] {
    } else {
      var e := i + |pieces[0].text|;
      PiecesOfText(m, s, e, pieces[1..]);
      assert s[i..] == s[i..e] + s[e..];
    }
  }

  lemma {:induction false} SecretIsMatch(m: Matcher, s: string, i: nat, pieces: seq<Piece>, k: nat) returns (at: nat)
    requires i <= |s| && Reads(m, s, i, pieces) && k < |pieces| && pieces[k].Secret?
    ensures i <= at <= at + |pieces[k].text| <= |s|
    ensures m(s, at) == Some(at + |pieces[k].text|) && pieces[k].text == s[at..at + |pieces[k].text|]
    decreases k
  {
    if k == 0 {
      at := i;
    } else {
      at := SecretIsMatch(m, s, i + |pieces[0].text|, pieces[1..], k - 1);
    }
  }

  // So whatever is true of every match is true of every replaced piece.
  lemma {:induction false} SecretsAre(m: Matcher, s: string, pieces: seq<Piece>, p: string -> bool)
    requires Reads(m, s, 0, pieces)
    requires forall at: nat, e: nat :: at <= e <= |s| && m(s, at) == Some(e) ==> p(s[at..e])
    ensures forall k :: 0 <= k < |pieces| && pieces[k].Secret? ==> p(pieces[k].text)
  {
    forall k | 0 <= k < |pieces| && pieces[k].Secret? ensures p(pieces[k].text) {
      var at := SecretIsMatch(m, s, 0, pieces, k);
    }
  }

  // Where piece k begins in the text the pieces make up.
  function OffsetOf(pieces: seq<Piece>, k: nat): nat
    requires k <= |pieces|
  {
    if k == 0 then 0 else |pieces[0].text| + OffsetOf(pieces[1..], k - 1)
  }

  // The stretch from p to q lies inside one replaced piece.
  predicate InsideSecret(pieces: seq<Piece>, p: nat, q: nat) {
    exists k :: 0 <= k < |pieces| && pieces[k].Secret? &&
      OffsetOf(pieces, k) <= p && q <= OffsetOf(pieces, k) + |pieces[k].text|
  }

  // Where a match begins, reading either takes that match or is inside another one; if none of
  // those ends before q, the whole stretch from the one to the other is replaced.
  lemma {:induction false} MatchCovered(m: Matcher, s: string, i: nat, pieces: seq<Piece>, p: nat, q: nat) returns (k: nat)
    requires i <= p < q <= |s| && Reads(m, s, i, pieces) && Found(m, s, p)
    requires forall at: nat, e: nat :: at <= p < e && m(s, at) == Some(e) ==> q <= e
    ensures k < |pieces| && pieces[k].Secret?
    ensures i + OffsetOf(pieces, k) <= p && q <= i + OffsetOf(pieces, k) + |pieces[k].text|
    decreases |pieces|
  {
    var e := i + |pieces[0].text|;
    if p < e {
      k := 0;
    } else {
      k := MatchCovered(m, s, e, pieces[1..], p, q);
      k := k + 1;
    }
  }

  // Text without a match is left alone.
  lemma {:induction false} SubOfClean(m: Matcher, s: string, i: nat, mark: string)
    requires i <= |s| && forall j :: i <= j <= |s| ==> !Found(m, s, j)
    ensures Sub(m, s, i, mark) == s[i..]
    decreases |s| - i
  {
    if i == |s| {
    } else {
      SubOfClean(m, s, i + 1, mark);
    }
  }
}
