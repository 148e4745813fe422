/** Printing and parsing of credentials: API keys and worker enrollment tokens.

  The separator is also a letter of the alphabet, so parsing relies on the lengths alone. Random
  bytes are parameters; hashing and verifying a secret is left to the caller. */
module Credentials {
  import opened Options
  import opened Bytes
  import Redaction

  // ---------------------------------------------------------------- base64url, section 5 of RFC 4648

  function Digit(v: nat): (c: char)
    requires v < 64
    ensures Redaction.TokenChar(c)
  {
    if v < 26 then 'A' + v as char
    else if v < 52 then 'a' + (v - 26) as char
    else if v < 62 then '0' + (v - 52) as char
    else if v == 62 then '-'
    else '_'
  }

  function ValueOf(c: char): (v: nat)
    requires Redaction.TokenChar(c)
    ensures v < 64 && Digit(v) == c
  {
    if 'A' <= c <= 'Z' then (c - 'A') as nat
    else if 'a' <= c <= 'z' then (c - 'a') as nat + 26
    else if '0' <= c <= '9' then (c - '0') as nat + 52
    else if c == '-' then 62
    else 63
  }

  function Group(a: Byte, b: Byte, c: Byte): (s: string)
    ensures |s| == 4 && AllTokenChars(s)
  {
    [Digit(a / 4), Digit(a % 4 * 16 + b / 16), Digit(b % 16 * 4 + c / 64), Digit(c % 64)]
  }

  // Three bytes become four digits; a shorter last group is not padded.
  function Encode(bytes: seq<Byte>): (s: string)
    ensures |s| == (4 * |bytes| + 2) / 3
    ensures AllTokenChars(s)
  {
    if bytes == [] then ""
    else if |bytes| == 1 then Group(bytes[0], 0, 0)[..2]
    else if |bytes| == 2 then Group(bytes[0], bytes[1], 0)[..3]
    else Group(bytes[0], bytes[1], bytes[2]) + Encode(bytes[3..])
  }

  function Decode(s: string): seq<Byte>
    requires AllTokenChars(s)
  {
    if |s| < 2 then []
    else if |s| == 2 then [First(s[0], s[1])]
    else if |s| == 3 then [First(s[0], s[1]), Second(s[1], s[2])]
    else [First(s[0], s[1]), Second(s[1], s[2]), Third(s[2], s[3])] + Decode(s[4..])
  }

  function First(a: char, b: char): Byte
    requires Redaction.TokenChar(a) && Redaction.TokenChar(b)
  {
    ValueOf(a) * 4 + ValueOf(b) / 16
  }

  function Second(b: char, c: char): Byte
    requires Redaction.TokenChar(b) && Redaction.TokenChar(c)
  {
    ValueOf(b) % 16 * 16 + ValueOf(c) / 4
  }

  function Third(c: char, d: char): Byte
    requires Redaction.TokenChar(c) && Redaction.TokenChar(d)
  {
    ValueOf(c) % 4 * 64 + ValueOf(d)
  }

  predicate AllTokenChars(s: string) {
    forall k :: 0 <= k < |s| ==> Redaction.TokenChar(s[k])
  }

  lemma {:induction false} DigitValue(v: nat)
    requires v < 64
    ensures ValueOf(Digit(v)) == v
  {}

  lemma {:induction false} Bits(a: Byte, b: Byte)
    ensures a / 4 * 4 + (a % 4 * 16 + b / 16) / 16 == a
    ensures (a % 4 * 16 + b / 16) % 16 * 16 + (b % 16 * 4) / 4 == b
    ensures (a % 16 * 4 + b / 64) / 4 == a % 16
    ensures (a % 16 * 4 + b / 64) % 4 * 64 + b % 64 == b
  {}

  // Each byte of a group can be read off its two digits, whatever its neighbours.
  lemma {:induction false} GroupDecodes(a: Byte, b: Byte, c: Byte)
    ensures var g := Group(a, b, c);
      First(g[0], g[1]) == a && Second(g[1], g[2]) == b && Third(g[2], g[3]) == c
  {
    DigitValue(a / 4);
    DigitValue(a % 4 * 16 + b / 16);
    DigitValue(b % 16 * 4 + c / 64);
    DigitValue(c % 64);
    Bits(a, b);
    Bits(b, c);
  }

  lemma {:induction false} DecodeGroup(a: Byte, b: Byte, c: Byte, tail: string)
    requires AllTokenChars(tail)
    ensures Decode(Group(a, b, c) + tail) == [a, b, c] + Decode(tail)
    ensures Decode(Group(a, b, c)[..3]) == [a, b] && Decode(Group(a, b, c)[..2]) == [a]
  {
    GroupDecodes(a, b, c);
    var s := Group(a, b, c) + tail;
    assert s[4..] == tail && s[..4] == Group(a, b, c);
    assert s[0] == s[..4][0] && s[1] == s[..4][1] && s[2] == s[..4][2] && s[3] == s[..4][3];
  }

  lemma {:induction false} EncodeGroup(bytes: seq<Byte>, a: Byte, b: Byte, c: Byte, rest: seq<Byte>)
    requires bytes == [a, b, c] + rest
    ensures Encode(bytes) == Group(a, b, c) + Encode(rest)
  {
    assert bytes[3..] == rest;
  }

  // The test vectors of section 10 of RFC 4648, without padding.
  lemma {:induction false} EncodeVectors()
    ensures Encode([]) == "" && Encode([102]) == "Zg" && Encode([102, 111]) == "Zm8" && Encode([102, 111, 111]) == "Zm9v"
    ensures Encode([251, 255]) == "-_8"
  {
    assert [102, 111, 111][3..] == [];
  }

  // The alphabet: capitals, small letters, figures, hyphen and underscore, in this order.
  lemma {:induction false} Alphabet(v: nat)
    requires v < 64
    ensures Digit(v) as int ==
            if v < 26 then 65 + v else if v < 52 then 97 + v - 26 else if v < 62 then 48 + v - 52 else if v == 62 then 45 else 95
  {}

  // The characters of a token are the digits of that alphabet and no others.
  lemma {:induction false} TokenCharsAreDigits(c: char)
    ensures Redaction.TokenChar(c) <==> exists v: nat :: v < 64 && Digit(v) == c
  {
    if Redaction.TokenChar(c) {
      assert Digit(ValueOf(c)) == c;
    }
  }

  // Encoding loses nothing, whatever the length.
  lemma {:induction false} DecodeEncode(bytes: seq<Byte>)
    ensures Decode(Encode(bytes)) == bytes
  {
    if |bytes| == 1 {
      DecodeGroup(bytes[0], 0, 0, "");
    } else if |bytes| == 2 {
      DecodeGroup(bytes[0], bytes[1], 0, "");
    } else if bytes != [] {
      var a, b, c, rest := bytes[0], bytes[1], bytes[2], bytes[3..];
      assert bytes == [a, b, c] + rest;
      EncodeGroup(bytes, a, b, c, rest);
      DecodeGroup(a, b, c, Encode(rest));
      DecodeEncode(rest);
    }
  }

  // ---------------------------------------------------------------- API keys

  const KEY_ID_LENGTH := 12
  const SECRET_LENGTH := 43

  datatype APIKey = APIKey(environment: string, keyId: string, secret: string)

  predicate Environment(s: string) {
    s == "live" || s == "test"
  }

  predicate WellFormed(k: APIKey) {
    && Environment(k.environment)
    && |k.keyId| == KEY_ID_LENGTH && AllTokenChars(k.keyId)
    && |k.secret| == SECRET_LENGTH && AllTokenChars(k.secret)
  }

  function DisplayPrefix(environment: string, keyId: string): string {
    "orbi_" + environment + "_v1_" + keyId
  }

  function RawKey(k: APIKey): string {
    DisplayPrefix(k.environment, k.keyId) + "_" + k.secret
  }

  datatype Generated = Generated(rawKey: string, keyId: string, displayPrefix: string, environment: string)

  function Generate(environment: string, id: seq<Byte>, secret: seq<Byte>): Result<Generated, string>
    requires |id| == 9 && |secret| == 32
  {
    if !Environment(environment) then Err("environment must be 'live' or 'test'")
    else
      var k := APIKey(environment, Encode(id), Encode(secret));
      Ok(Generated(RawKey(k), k.keyId, DisplayPrefix(environment, k.keyId), environment))
  }

  // The pattern has no choice but the environment: everything else sits at a fixed place.
  function Parse(raw: string): Option<APIKey> {
    if |raw| != 69 || raw[..5] != "orbi_" || raw[9..13] != "_v1_" || raw[25] != '_' then None
    else
      var k := APIKey(raw[5..9], raw[13..25], raw[26..]);
      if WellFormed(k) then Some(k) else None
  }

  lemma {:induction false} RawKeyParts(k: APIKey)
    requires |k.environment| == 4 && |k.keyId| == KEY_ID_LENGTH && |k.secret| == SECRET_LENGTH
    ensures var raw := RawKey(k);
      && |raw| == 69 && raw[..5] == "orbi_" && raw[5..9] == k.environment && raw[9..13] == "_v1_"
      && raw[13..25] == k.keyId && raw[25] == '_' && raw[26..] == k.secret
  {}

  // A string parses to a key exactly when it is that key printed.
  lemma {:induction false} ParsePrint(raw: string, k: APIKey)
    ensures Parse(raw) == Some(k) <==>
            WellFormed(k) && raw == "orbi_" + k.environment + "_v1_" + k.keyId + "_" + k.secret
  {
    if WellFormed(k) {
      RawKeyParts(k);
    }
    if Parse(raw) == Some(k) {
      RawKeyParts(k);
      assert raw == raw[..5] + raw[5..9] + raw[9..13] + raw[13..25] + [raw[25]] + raw[26..];
    }
  }

  // Two keys that print alike are one key, although a secret may begin like the end of an ID.
  lemma {:induction false} PrintInjective(a: APIKey, b: APIKey)
    requires WellFormed(a) && WellFormed(b) && RawKey(a) == RawKey(b)
    ensures a == b
  {
    ParsePrint(RawKey(a), a);
    ParsePrint(RawKey(b), b);
  }

  lemma {:induction false} PrintedParses(k: APIKey)
    requires WellFormed(k)
    ensures Parse(RawKey(k)) == Some(k)
  {
    ParsePrint(RawKey(k), k);
  }

  // A generated key parses back to what it was generated from, its random bytes can be read off it,
  // and the part kept for display is all of it but the separator and the secret.
  lemma {:induction false} GeneratedParses(environment: string, id: seq<Byte>, secret: seq<Byte>)
    requires |id| == 9 && |secret| == 32
    ensures Generate(environment, id, secret).Ok? <==> Environment(environment)
    ensures Environment(environment) ==>
      var g := Generate(environment, id, secret).value;
      && Parse(g.rawKey).Some?
      && var k := Parse(g.rawKey).value;
      && k.environment == environment == g.environment && k.keyId == g.keyId
      && Decode(k.keyId) == id && Decode(k.secret) == secret
      && g.rawKey == g.displayPrefix + "_" + k.secret && g.displayPrefix == "orbi_" + environment + "_v1_" + k.keyId
  {
    if Environment(environment) {
      PrintedParses(APIKey(environment, Encode(id), Encode(secret)));
      DecodeEncode(id);
      DecodeEncode(secret);
    }
  }

  // ---------------------------------------------------------------- enrollment tokens

  const NODE_PREFIX := "orbi_node_v1_"

  function RawToken(tokenId: string, secret: string): string {
    NODE_PREFIX + tokenId + "_" + secret
  }

  predicate StartsWith(s: string, prefix: string) {
    |prefix| <= |s| && s[..|prefix|] == prefix
  }

  function RemovePrefix(s: string, prefix: string): string {
    if StartsWith(s, prefix) then s[|prefix|..] else s
  }

  // The registration endpoint's own check and cut.
  function CutTokenId(raw: string): Option<string> {
    var remainder := RemovePrefix(raw, NODE_PREFIX);
    if !StartsWith(raw, NODE_PREFIX) || |remainder| != 56 || remainder[12] != '_' then None
    else Some(remainder[..12])
  }

  // The enrollment service's, followed by the verification of the secret.
  function ParseAndVerify(raw: string, verify: string -> bool): Option<string> {
    if !StartsWith(raw, NODE_PREFIX) then None
    else
      var remainder := RemovePrefix(raw, NODE_PREFIX);
      if |remainder| != 56 || remainder[12] != '_' then None
      else if verify(remainder[13..]) then Some(remainder[..12])
      else None
  }

  lemma {:induction false} RawTokenParts(tokenId: string, secret: string)
    requires |tokenId| == KEY_ID_LENGTH
    ensures var raw := RawToken(tokenId, secret);
      && |raw| == 26 + |secret| && StartsWith(raw, NODE_PREFIX) && raw[13..][..12] == tokenId
      && raw[13..][12] == '_' && raw[13..][13..] == raw[26..] == secret
  {}

  // The endpoint's cut finds the ID of exactly the printed tokens; no alphabet is asked for.
  lemma {:induction false} CutPrint(raw: string, tokenId: string)
    ensures CutTokenId(raw) == Some(tokenId) <==>
            |tokenId| == 12 && |raw| == 69 && raw == "orbi_node_v1_" + tokenId + "_" + raw[26..]
  {
    if CutTokenId(raw) == Some(tokenId) {
      var remainder := RemovePrefix(raw, NODE_PREFIX);
      assert remainder == remainder[..12] + [remainder[12]] + remainder[13..];
      assert raw == raw[..13] + remainder;
      assert raw[26..] == remainder[13..];
    }
    if |tokenId| == KEY_ID_LENGTH && |raw| == 69 {
      RawTokenParts(tokenId, raw[26..]);
    }
  }

  // The two copies of the parser agree: the service returns an ID exactly when the endpoint cuts
  // that ID and the secret after it verifies.
  lemma {:induction false} ParsersAgree(raw: string, verify: string -> bool, tokenId: string)
    ensures ParseAndVerify(raw, verify) == Some(tokenId) <==>
            CutTokenId(raw) == Some(tokenId) && verify(raw[26..])
  {
    CutPrint(raw, tokenId);
    if StartsWith(raw, NODE_PREFIX) && |raw| == 69 {
      assert raw[13..][13..] == raw[26..];
    }
  }

  // A generated token, read by both: the same ID, and the secret it was made with.
  lemma {:induction false} GeneratedTokenParses(id: seq<Byte>, secret: seq<Byte>, verify: string -> bool)
    requires |id| == 9 && |secret| == 32
    ensures var raw := RawToken(Encode(id), Encode(secret));
      && CutTokenId(raw) == Some(Encode(id)) && Decode(Encode(id)) == id
      && (ParseAndVerify(raw, verify) == Some(Encode(id)) <==> verify(Encode(secret)))
  {
    var raw := RawToken(Encode(id), Encode(secret));
    assert raw[26..] == Encode(secret);
    CutPrint(raw, Encode(id));
    ParsersAgree(raw, verify, Encode(id));
    DecodeEncode(id);
  }

  // ---------------------------------------------------------------- what the log may show

  lemma {:induction false} PrefixedIsToken(prefix: string, tail: string)
    requires prefix == Redaction.LIVE || prefix == Redaction.TEST || prefix == Redaction.NODE || prefix == Redaction.ADMIN
    requires tail != "" && AllTokenChars(tail)
    ensures Redaction.Token(prefix + tail)
  {
    var s := prefix + tail;
    var n := |prefix|;
    PrefixAt(prefix, tail);
    Redaction.OnePrefix(s, 0);
    forall k | n <= k < |s| ensures Redaction.TokenChar(s[k]) {
      assert s[k] == tail[k - n];
    }
    Redaction.RunIsWhole(s, n);
  }

  lemma {:induction false} PrefixAt(prefix: string, tail: string)
    ensures Redaction.At(prefix + tail, 0, prefix)
  {
    assert (prefix + tail)[..|prefix|] == prefix;
  }

  predicate HasForm(s: string, environment: string) {
    && (environment == "live" || environment == "test" || environment == "node" || environment == "admin")
    && var prefix := "orbi_" + environment + "_v1_";
    |prefix| < |s| && s[..|prefix|] == prefix && AllTokenChars(s[|prefix|..])
  }

  lemma {:induction false} FormIsToken(s: string, environment: string)
    requires HasForm(s, environment)
    ensures Redaction.Token(s)
  {
    var prefix := "orbi_" + environment + "_v1_";
    assert prefix == Redaction.LIVE || prefix == Redaction.TEST || prefix == Redaction.NODE || prefix == Redaction.ADMIN;
    assert s == prefix + s[|prefix|..];
    PrefixedIsToken(prefix, s[|prefix|..]);
  }

  lemma {:induction false} TokenHasForm(s: string) returns (environment: string)
    requires Redaction.Token(s)
    ensures HasForm(s, environment)
  {
    environment :=
      if Redaction.At(s, 0, Redaction.LIVE) then "live" else if Redaction.At(s, 0, Redaction.TEST) then "test"
      else if Redaction.At(s, 0, Redaction.NODE) then "node" else "admin";
    Redaction.RunIsWhole(s, |"orbi_" + environment + "_v1_"|);
  }

  // What is redacted is what has the form of a credential, and nothing else.
  lemma {:induction false} TokensHaveForm(s: string)
    ensures Redaction.Token(s) <==> exists environment :: HasForm(s, environment)
  {
    if Redaction.Token(s) {
      var environment := TokenHasForm(s);
    }
    if environment :| HasForm(s, environment) {
      FormIsToken(s, environment);
    }
  }

  // Whatever has the form of a credential, of an API key, a node or an administrator, is redacted.
  lemma {:induction false} FormsRedacted(environment: string, tail: string, text: string)
    requires environment == "live" || environment == "test" || environment == "node" || environment == "admin"
    requires tail != "" && AllTokenChars(tail)
    ensures var raw := "orbi_" + environment + "_v1_" + tail;
      Redaction.Redact(raw) == "[REDACTED_ORBI_TOKEN]" && Redaction.Vanishes(raw, text)
  {
    var prefix := "orbi_" + environment + "_v1_";
    assert prefix == Redaction.LIVE || prefix == Redaction.TEST || prefix == Redaction.NODE || prefix == Redaction.ADMIN;
    PrefixedIsToken(prefix, tail);
    Redaction.TokenRedacted(prefix + tail);
    Redaction.NoTokenLeft(text, prefix + tail);
  }

  // Well-formed API keys and generated enrollment tokens never survive redaction, whatever text
  // stands around them, and neither do their secrets: each occurrence is replaced as a whole.
  lemma {:induction false} KeysNeverLogged(k: APIKey, text: string)
    requires WellFormed(k)
    ensures Redaction.Redact(RawKey(k)) == "[REDACTED_ORBI_TOKEN]" && Redaction.Vanishes(RawKey(k), text)
  {
    var tail := k.keyId + "_" + k.secret;
    var prefix := "orbi_" + k.environment + "_v1_";
    assert RawKey(k) == prefix + tail;
    assert prefix == Redaction.LIVE || prefix == Redaction.TEST;
    PrefixedIsToken(prefix, tail);
    Redaction.TokenRedacted(RawKey(k));
    Redaction.NoTokenLeft(text, RawKey(k));
  }

  lemma {:induction false} TokensNeverLogged(id: seq<Byte>, secret: seq<Byte>, text: string)
    ensures var raw := RawToken(Encode(id), Encode(secret));
      Redaction.Redact(raw) == "[REDACTED_ORBI_TOKEN]" && Redaction.Vanishes(raw, text)
  {
    var tail := Encode(id) + "_" + Encode(secret);
    var raw := RawToken(Encode(id), Encode(secret));
    assert raw == NODE_PREFIX + tail;
    PrefixedIsToken(NODE_PREFIX, tail);
    Redaction.TokenRedacted(raw);
    Redaction.NoTokenLeft(text, raw);
  }
}
