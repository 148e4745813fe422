/** Redaction of credentials in log events: the token pattern, the substitution of its matches, and
  the lifting of that substitution over nested values. */
module Redaction {
  import opened Options
  import opened Substitution

  predicate TokenChar(c: char) {
    'A' <= c <= 'Z' || 'a' <= c <= 'z' || '0' <= c <= '9' || c == '_' || c == '-'
  }

  predicate At(s: string, i: nat, word: string) {
    i + |word| <= |s| && s[i..i + |word|] == word
  }

  // ---------------------------------------------------------------- the pattern, as written

  const LIVE := "orbi_live_v1_"
  const TEST := "orbi_test_v1_"
  const NODE := "orbi_node_v1_"
  const ADMIN := "orbi_admin_v1_"

  // Where a run of token characters that starts at i ends.
  function RunEnd(s: string, i: nat): (e: nat)
    requires i <= |s|
    ensures i <= e <= |s|
    decreases |s| - i
  {
    if i < |s| && TokenChar(s[i]) then RunEnd(s, i + 1) else i
  }

  // The run is all token characters, and as long as it can be.
  lemma {:induction false} RunIsWhole(s: string, i: nat)
    requires i <= |s|
    ensures forall k :: i <= k < RunEnd(s, i) ==> TokenChar(s[k])
    ensures RunEnd(s, i) < |s| ==> !TokenChar(s[RunEnd(s, i)])
    decreases |s| - i
  {
    if i == |s| || !TokenChar(s[i]) {
    } else {
      RunIsWhole(s, i + 1);
    }
  }

  // The ends of a non-empty run from i in the order a greedy quantifier tries them: e, e - 1, ...
  function Lengths(i: nat, e: nat): seq<nat>
    requires i <= e
    decreases e
  {
    if e == i then [] else [e] + Lengths(i, e - 1)
  }

  // The ends of the optional tail at j, a taken tail before none.
  function Tails(s: string, j: nat): seq<nat>
    requires j <= |s|
  {
    (if j < |s| && s[j] == '_' then Lengths(j + 1, RunEnd(s, j + 1)) else []) + [j]
  }

  function TailsOf(s: string, ends: seq<nat>): seq<nat>
    requires forall k :: 0 <= k < |ends| ==> ends[k] <= |s|
  {
    if ends == [] then [] else Tails(s, ends[0]) + TailsOf(s, ends[1..])
  }

  lemma {:induction false} LengthsWithin(i: nat, e: nat)
    requires i <= e
    ensures forall k :: 0 <= k < |Lengths(i, e)| ==> i < Lengths(i, e)[k] <= e
    decreases e
  {
    if e == i {
    } else {
      LengthsWithin(i, e - 1);
    }
  }

  // All ends of a match at i with one of the four prefixes, in the order backtracking finds them.
  function EndsAfter(s: string, i: nat, prefix: string): seq<nat> {
    if At(s, i, prefix) then
      var h := i + |prefix|;
      LengthsWithin(h, RunEnd(s, h));
      TailsOf(s, Lengths(h, RunEnd(s, h)))
    else []
  }

  function Ends(s: string, i: nat): seq<nat> {
    EndsAfter(s, i, LIVE) + EndsAfter(s, i, TEST) + EndsAfter(s, i, NODE) + EndsAfter(s, i, ADMIN)
  }

  // ---------------------------------------------------------------- the pattern, simplified

  function HeadEnd(s: string, i: nat): Option<nat> {
    if At(s, i, LIVE) || At(s, i, TEST) || At(s, i, NODE) then Some(i + 13)
    else if At(s, i, ADMIN) then Some(i + 14)
    else None
  }

  predicate Matches(s: string, i: nat) {
    HeadEnd(s, i).Some? && HeadEnd(s, i).value < |s| && TokenChar(s[HeadEnd(s, i).value])
  }

  // The end of the match at i: the whole run after the prefix, without any tail.
  function MatchEnd(s: string, i: nat): (e: nat)
    requires Matches(s, i)
    ensures i < e <= |s|
  {
    RunEnd(s, HeadEnd(s, i).value)
  }

  // The optional tail never changes a match: after the longest run there is no separator left for
  // it, and the first attempt without it succeeds.
  lemma {:induction false} NoTail(s: string, i: nat, prefix: string)
    ensures At(s, i, prefix) ==>
      var h := i + |prefix|;
      if h < |s| && TokenChar(s[h]) then EndsAfter(s, i, prefix) != [] && EndsAfter(s, i, prefix)[0] == RunEnd(s, h)
      else EndsAfter(s, i, prefix) == []
  {
    if At(s, i, prefix) {
      RunIsWhole(s, i + |prefix|);
    }
  }

  lemma {:induction false} OnePrefix(s: string, i: nat)
    ensures At(s, i, LIVE) ==> !At(s, i, TEST) && !At(s, i, NODE) && !At(s, i, ADMIN)
    ensures At(s, i, TEST) ==> !At(s, i, NODE) && !At(s, i, ADMIN)
    ensures At(s, i, NODE) ==> !At(s, i, ADMIN)
  {
    if i + 13 <= |s| {
      var w := s[i..i + 13];
      assert w[5] == s[i + 5];
      if i + 14 <= |s| {
        assert s[i..i + 14][5] == s[i + 5];
      }
    }
  }

  // What the engine prefers is the simplified match.
  lemma {:induction false} EngineMatch(s: string, i: nat)
    ensures Ends(s, i) != [] <==> Matches(s, i)
    ensures Matches(s, i) ==> Ends(s, i)[0] == MatchEnd(s, i)
  {
    OnePrefix(s, i);
    NoTail(s, i, LIVE);
    NoTail(s, i, TEST);
    NoTail(s, i, NODE);
    NoTail(s, i, ADMIN);
  }

  // ---------------------------------------------------------------- what substitution leaves

  function TokenAt(s: string, i: nat): Option<nat> {
    if Matches(s, i) then Some(MatchEnd(s, i)) else None
  }

  // A replacement that can neither continue a token nor begin one.
  predicate Inert(mark: string) {
    mark != "" && !TokenChar(mark[0]) && forall k :: 0 <= k < |mark| ==> mark[k] != 'o'
  }

  predicate Clean(s: string) {
    forall i :: 0 <= i < |s| ==> !Matches(s, i)
  }

  lemma {:induction false} AtShift(x: string, u: string, q: nat, word: string)
    ensures At(x + u, |x| + q, word) <==> At(u, q, word)
  {
    if q + |word| <= |u| {
      assert (x + u)[|x| + q..|x| + q + |word|] == u[q..q + |word|];
    }
  }

  lemma {:induction false} MatchesShift(x: string, u: string, q: nat)
    ensures Matches(x + u, |x| + q) <==> Matches(u, q)
  {
    AtShift(x, u, q, LIVE);
    AtShift(x, u, q, TEST);
    AtShift(x, u, q, NODE);
    AtShift(x, u, q, ADMIN);
  }

  // A match begins with an o and consists of token characters.
  lemma {:induction false} MatchText(s: string, i: nat)
    requires Matches(s, i)
    ensures s[i] == 'o'
    ensures forall k :: i <= k <= HeadEnd(s, i).value ==> TokenChar(s[k])
  {
    var h := HeadEnd(s, i).value;
    var w := s[i..h];
    assert w[0] == s[i];
    forall k | i <= k < h ensures TokenChar(s[k]) {
      assert w[k - i] == s[k];
      assert forall m :: 0 <= m < |LIVE| ==> TokenChar(LIVE[m]);
      assert forall m :: 0 <= m < |TEST| ==> TokenChar(TEST[m]);
      assert forall m :: 0 <= m < |NODE| ==> TokenChar(NODE[m]);
      assert forall m :: 0 <= m < |ADMIN| ==> TokenChar(ADMIN[m]);
    }
  }

  // A token character at the start of an output was copied, not put there by a replacement.
  lemma {:induction false} FirstCopied(m: Matcher, s: string, i: nat, mark: string)
    requires Inert(mark) && i <= |s| && Sub(m, s, i, mark) != "" && TokenChar(Sub(m, s, i, mark)[0])
    ensures i < |s| && Sub(m, s, i, mark)[0] == s[i] && Sub(m, s, i, mark)[1..] == Sub(m, s, i + 1, mark)
  {
    if Found(m, s, i) {
      assert false;
    }
  }

  // So is every token character before the first other character.
  lemma {:induction false} TokenPrefixCopied(m: Matcher, s: string, i: nat, t: string, n: nat, mark: string)
    requires Inert(mark) && i <= |s| && t == Sub(m, s, i, mark) && n <= |t|
    requires forall k :: 0 <= k < n ==> TokenChar(t[k])
    ensures i + n <= |s| && s[i..i + n] == t[..n]
    decreases n
  {
    if n == 0 {
    } else {
      FirstCopied(m, s, i, mark);
      TokenPrefixCopied(m, s, i + 1, t[1..], n - 1, mark);
      assert s[i..i + n] == [s[i]] + s[i + 1..i + n];
      assert t[..n] == [t[0]] + t[1..][..n - 1];
    }
  }

  // A match depends only on the prefix and the one character after it.
  lemma {:induction false} MatchCopied(s: string, i: nat, t: string, n: nat)
    requires Matches(t, 0) && HeadEnd(t, 0).value < n <= |t|
    requires i + n <= |s| && s[i..i + n] == t[..n]
    ensures Matches(s, i)
  {
    var h := HeadEnd(t, 0).value;
    assert s[i..i + h] == t[..h] by {
      assert s[i..i + n][..h] == s[i..i + h];
    }
    assert s[i + h] == s[i..i + n][h];
    OnePrefix(s, i);
  }

  lemma {:induction false} NoMatchAtStart(s: string, i: nat, t: string, mark: string)
    requires Inert(mark) && i <= |s| && t == Sub(TokenAt, s, i, mark)
    ensures !Matches(t, 0)
  {
    if Matches(t, 0) {
      MatchText(t, 0);
      var n := HeadEnd(t, 0).value + 1;
      TokenPrefixCopied(TokenAt, s, i, t, n, mark);
      MatchCopied(s, i, t, n);
      assert false;
    }
  }

  // Putting an inert mark or a single character in front of a clean text makes no match inside it.
  lemma {:induction false} CleanAfter(x: string, u: string)
    requires Clean(u) && !Matches(x + u, 0) && (|x| == 1 || Inert(x))
    ensures Clean(x + u)
  {
    forall p | 0 <= p < |x + u| ensures !Matches(x + u, p) {
      if p >= |x| {
        MatchesShift(x, u, p - |x|);
      } else if p > 0 && Matches(x + u, p) {
        MatchText(x + u, p);
        assert false;
      }
    }
  }

  lemma {:induction false} SubClean(s: string, i: nat, mark: string)
    requires Inert(mark) && i <= |s|
    ensures Clean(Sub(TokenAt, s, i, mark))
    decreases |s| - i
  {
    var t := Sub(TokenAt, s, i, mark);
    NoMatchAtStart(s, i, t, mark);
    if Found(TokenAt, s, i) {
      SubClean(s, TokenAt(s, i).value, mark);
      CleanAfter(mark, Sub(TokenAt, s, TokenAt(s, i).value, mark));
    } else if i < |s| {
      SubClean(s, i + 1, mark);
      CleanAfter([s[i]], Sub(TokenAt, s, i + 1, mark));
    }
  }

  // ---------------------------------------------------------------- tokens by themselves

  // A text that is a match from its first character to its last.
  predicate Token(s: string) {
    Matches(s, 0) && MatchEnd(s, 0) == |s|
  }

  lemma {:induction false} RunOf(s: string, i: nat, j: nat, e: nat)
    requires i <= j <= e <= |s| && forall k :: j <= k < e ==> TokenChar(s[k])
    ensures RunEnd(s[i..e], j - i) == e - i
    decreases e - j
  {
    if j == e {
    } else {
      RunOf(s, i, j + 1, e);
    }
  }

  // Cut out, a match is a token by itself, and nothing after it could have made it longer.
  lemma {:induction false} MatchIsToken(s: string, i: nat)
    requires Matches(s, i)
    ensures Token(s[i..MatchEnd(s, i)]) && (MatchEnd(s, i) < |s| ==> !TokenChar(s[MatchEnd(s, i)]))
  {
    var h, e := HeadEnd(s, i).value, MatchEnd(s, i);
    var t := s[i..e];
    assert t[..h - i] == s[i..h] && t[h - i] == s[h];
    OnePrefix(s, i);
    OnePrefix(t, 0);
    RunIsWhole(s, h);
    RunOf(s, i, h, e);
  }

  // ---------------------------------------------------------------- nested values

  const REPLACEMENT := "[REDACTED_ORBI_TOKEN]"

  function Redact(text: string): string {
    Sub(TokenAt, text, 0, REPLACEMENT)
  }

  lemma {:induction false} RedactIsClean(text: string)
    ensures Clean(Redact(text))
  {
    assert Inert(REPLACEMENT);
    SubClean(text, 0, REPLACEMENT);
  }

  // How a text is read: its matches, each a token by itself, and the characters between them.
  ghost predicate TokensOf(s: string, pieces: seq<Piece>) {
    && Reads(TokenAt, s, 0, pieces) && Original(pieces) == s
    && forall k :: 0 <= k < |pieces| && pieces[k].Secret? ==> Token(pieces[k].text)
  }

  // `t` is `s` with exactly those tokens replaced.
  ghost predicate OnlyTokensReplaced(s: string, t: string) {
    exists pieces :: TokensOf(s, pieces) && Redacted(pieces, REPLACEMENT) == t
  }

  lemma {:induction false} SecretsAreTokens(s: string, pieces: seq<Piece>)
    requires Reads(TokenAt, s, 0, pieces)
    ensures TokensOf(s, pieces)
  {
    PiecesOfText(TokenAt, s, 0, pieces);
    assert s[0..] == s;
    forall at: nat, e: nat | at <= e <= |s| && TokenAt(s, at) == Some(e) ensures Token(s[at..e]) {
      MatchIsToken(s, at);
    }
    SecretsAre(TokenAt, s, pieces, Token);
  }

  lemma {:induction false} RedactReplacesTokens(s: string, t: string)
    ensures OnlyTokensReplaced(s, t) <==> t == Redact(s)
  {
    if OnlyTokensReplaced(s, t) {
      var pieces :| TokensOf(s, pieces) && Redacted(pieces, REPLACEMENT) == t;
      ReadsSub(TokenAt, s, 0, pieces, REPLACEMENT);
    }
    var pieces := SubReads(TokenAt, s, 0, REPLACEMENT);
    SecretsAreTokens(s, pieces);
  }

  lemma {:induction false} RedactOfClean(text: string)
    requires Clean(text)
    ensures Redact(text) == text
  {
    forall j | 0 <= j <= |text| ensures !Found(TokenAt, text, j) {}
    SubOfClean(TokenAt, text, 0, REPLACEMENT);
    assert text[0..] == text;
  }

  // A log value: text, a dictionary (its entries in order), a list, or anything else.
  datatype Value = Str(text: string) | Dict(entries: seq<Entry>) | List(items: seq<Value>) | Other(repr: string)
  datatype Entry = Entry(key: string, value: Value)

  function Scrub(v: Value): Value {
    match v
    case Str(text) => Str(Redact(text))
    case Dict(entries) =>
      Dict(seq(|entries|, i requires 0 <= i < |entries| => Entry(entries[i].key, Scrub(entries[i].value))))
    case List(items) => List(seq(|items|, i requires 0 <= i < |items| => Scrub(items[i])))
    case Other(_) => v
  }

  function RedactSecrets(event: seq<Entry>): seq<Entry> {
    seq(|event|, i requires 0 <= i < |event| => Entry(event[i].key, Scrub(event[i].value)))
  }

  // No text reachable through dictionary values and lists holds a match.
  predicate CleanValue(v: Value) {
    match v
    case Str(text) => Clean(text)
    case Dict(entries) => forall i :: 0 <= i < |entries| ==> CleanValue(entries[i].value)
    case List(items) => forall i :: 0 <= i < |items| ==> CleanValue(items[i])
    case Other(_) => true
  }

  // The same shape and keys, and texts that differ only in whole tokens replaced.
  ghost predicate SameButSecrets(v: Value, w: Value) {
    match v
    case Str(text) => w.Str? && OnlyTokensReplaced(text, w.text)
    case Dict(entries) =>
      w.Dict? && |w.entries| == |entries| &&
      forall i :: 0 <= i < |entries| ==>
        w.entries[i].key == entries[i].key && SameButSecrets(entries[i].value, w.entries[i].value)
    case List(items) =>
      w.List? && |w.items| == |items| && forall i :: 0 <= i < |items| ==> SameButSecrets(items[i], w.items[i])
    case Other(_) => w == v
  }

  lemma {:induction false} ScrubIsClean(v: Value)
    ensures CleanValue(Scrub(v))
  {
    match v
    case Str(text) => RedactIsClean(text);
    case Dict(entries) => forall i | 0 <= i < |entries| { ScrubIsClean(entries[i].value); }
    case List(items) => forall i | 0 <= i < |items| { ScrubIsClean(items[i]); }
    case Other(_) =>
  }

  lemma {:induction false} ScrubKeepsClean(v: Value)
    requires CleanValue(v)
    ensures Scrub(v) == v
  {
    match v
    case Str(text) => RedactOfClean(text);
    case Dict(entries) =>
      forall i | 0 <= i < |entries| ensures Scrub(v).entries[i] == entries[i] { ScrubKeepsClean(entries[i].value); }
    case List(items) =>
      forall i | 0 <= i < |items| ensures Scrub(v).items[i] == items[i] { ScrubKeepsClean(items[i]); }
    case Other(_) =>
  }

  lemma {:induction false} ScrubKeepsRest(v: Value)
    ensures SameButSecrets(v, Scrub(v))
  {
    match v
    case Str(text) =>
      RedactReplacesTokens(text, Redact(text));
    case Dict(entries) => forall i | 0 <= i < |entries| { ScrubKeepsRest(entries[i].value); }
    case List(items) => forall i | 0 <= i < |items| { ScrubKeepsRest(items[i]); }
    case Other(_) =>
  }

  // Redaction of an event is complete, changes nothing else, and is done after one pass.
  lemma {:induction false} Redaction(event: seq<Entry>)
    ensures CleanValue(Dict(RedactSecrets(event)))
    ensures SameButSecrets(Dict(event), Dict(RedactSecrets(event)))
    ensures RedactSecrets(RedactSecrets(event)) == RedactSecrets(event)
  {
    var v := Dict(event);
    assert Scrub(v) == Dict(RedactSecrets(event));
    ScrubIsClean(v);
    ScrubKeepsRest(v);
    ScrubKeepsClean(Scrub(v));
    assert Scrub(Scrub(v)) == Dict(RedactSecrets(RedactSecrets(event)));
  }

  // ---------------------------------------------------------------- credentials

  // A token alone becomes the replacement alone.
  lemma {:induction false} TokenRedacted(s: string)
    requires Token(s)
    ensures Redact(s) == REPLACEMENT
  {
    assert Sub(TokenAt, s, |s|, REPLACEMENT) == "";
  }

  lemma {:induction false} TokenIsTokenChars(token: string)
    requires Token(token)
    ensures token != "" && forall k :: 0 <= k < |token| ==> TokenChar(token[k])
  {
    MatchText(token, 0);
    RunIsWhole(token, HeadEnd(token, 0).value);
  }

  // A match that reaches into a stretch of token characters reaches to its end.
  lemma {:induction false} MatchReaches(s: string, at: nat, p: nat, q: nat)
    requires Matches(s, at) && at <= p < MatchEnd(s, at) && q <= |s|
    requires forall k :: p <= k < q ==> TokenChar(s[k])
    ensures q <= MatchEnd(s, at)
  {
    RunIsWhole(s, HeadEnd(s, at).value);
  }

  // Wherever a token stands in a text, all of it, secret included, is inside one replaced piece.
  lemma {:induction false} TokenCovered(s: string, pieces: seq<Piece>, p: nat, token: string)
    requires Reads(TokenAt, s, 0, pieces) && Token(token) && At(s, p, token)
    ensures InsideSecret(pieces, p, p + |token|)
  {
    TokenIsTokenChars(token);
    forall k | p <= k < p + |token| ensures TokenChar(s[k]) {
      assert s[k] == s[p..p + |token|][k - p];
    }
    MatchCopied(s, p, token, |token|);
    forall at: nat, e: nat | at <= p < e && TokenAt(s, at) == Some(e) ensures p + |token| <= e {
      MatchReaches(s, at, p, p + |token|);
    }
    var k := MatchCovered(TokenAt, s, 0, pieces, p, p + |token|);
  }

  // In the redaction of `s` every occurrence of the token is replaced as a whole, and no copy of it
  // stands anywhere in the output.
  ghost predicate Vanishes(token: string, s: string) {
    && (forall pieces :: TokensOf(s, pieces) ==> Redacted(pieces, REPLACEMENT) == Redact(s))
    && (forall pieces, p: nat :: TokensOf(s, pieces) && At(s, p, token) ==> InsideSecret(pieces, p, p + |token|))
    && (forall p: nat :: !At(Redact(s), p, token))
  }

  lemma {:induction false} NoTokenLeft(s: string, token: string)
    requires Token(token)
    ensures Vanishes(token, s)
  {
    forall pieces, p: nat | TokensOf(s, pieces) && At(s, p, token) ensures InsideSecret(pieces, p, p + |token|) {
      TokenCovered(s, pieces, p, token);
    }
    forall pieces | TokensOf(s, pieces) ensures Redacted(pieces, REPLACEMENT) == Redact(s) {
      ReadsSub(TokenAt, s, 0, pieces, REPLACEMENT);
    }
    forall p: nat ensures !At(Redact(s), p, token) {
      NoCopyLeft(s, token, p);
    }
  }

  lemma {:induction false} NoCopyLeft(s: string, token: string, p: nat)
    requires Token(token)
    ensures !At(Redact(s), p, token)
  {
    var t := Redact(s);
    if At(t, p, token) {
      RedactIsClean(s);
      MatchCopied(t, p, token, |token|);
      assert false;
    }
  }
}
