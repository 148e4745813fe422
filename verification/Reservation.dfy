/** The size of a reservation: the UTF-8 bytes of all messages plus the completion ceiling. */
module Reservation {
  import opened Bytes

  const MAX_MESSAGES := 256
  const MAX_CONTENT := 100_000
  const MAX_COMPLETION := 4096
  const INT32_MAX := 0x7FFF_FFFF

  // One scalar value as UTF-8, section 3 of RFC 3629.
  function Utf8(c: char): (bytes: seq<Byte>)
    ensures 1 <= |bytes| <= 4
    ensures |bytes| == if c as int < 0x80 then 1 else if c as int < 0x800 then 2 else if c as int < 0x1_0000 then 3 else 4
  {
    var n := c as int;
    if n < 0x80 then [n]
    else if n < 0x800 then [0xC0 + n / 0x40, 0x80 + n % 0x40]
    else if n < 0x1_0000 then [0xE0 + n / 0x1000, 0x80 + n / 0x40 % 0x40, 0x80 + n % 0x40]
    else [0xF0 + n / 0x4_0000, 0x80 + n / 0x1000 % 0x40, 0x80 + n / 0x40 % 0x40, 0x80 + n % 0x40]
  }

  function Encode(s: string): (bytes: seq<Byte>)
    ensures |s| <= |bytes| <= 4 * |s|
  {
    if s == [] then [] else Utf8(s[0]) + Encode(s[1..])
  }

  // How many bytes the first of them announces, and the code point they hold.
  function Announced(lead: Byte): nat {
    if lead < 0x80 then 1 else if lead < 0xE0 then 2 else if lead < 0xF0 then 3 else 4
  }

  function CodePoint(bytes: seq<Byte>): int
    requires bytes != [] && |bytes| == Announced(bytes[0])
  {
    var b := seq(|bytes|, i requires 0 <= i < |bytes| => bytes[i] as int);
    if |b| == 1 then b[0]
    else if |b| == 2 then (b[0] - 0xC0) * 0x40 + (b[1] - 0x80)
    else if |b| == 3 then (b[0] - 0xE0) * 0x1000 + (b[1] - 0x80) * 0x40 + (b[2] - 0x80)
    else (b[0] - 0xF0) * 0x4_0000 + (b[1] - 0x80) * 0x1000 + (b[2] - 0x80) * 0x40 + (b[3] - 0x80)
  }

  function Decode(bytes: seq<Byte>): seq<int> {
    if bytes == [] || Announced(bytes[0]) > |bytes| then []
    else [CodePoint(bytes[..Announced(bytes[0])])] + Decode(bytes[Announced(bytes[0])..])
  }

  function CodePoints(s: string): seq<int> {
    seq(|s|, i requires 0 <= i < |s| => s[i] as int)
  }

  // A code point in groups of six bits.
  lemma {:induction false} SixBits(n: nat)
    ensures n == n / 0x40 * 0x40 + n % 0x40
    ensures n / 0x40 == n / 0x1000 * 0x40 + n / 0x40 % 0x40
    ensures n / 0x1000 == n / 0x4_0000 * 0x40 + n / 0x1000 % 0x40
  {
    assert n / 0x1000 == n / 0x40 / 0x40;
    assert n / 0x4_0000 == n / 0x1000 / 0x40;
  }

  lemma {:induction false} Utf8Decodes(c: char)
    ensures Announced(Utf8(c)[0]) == |Utf8(c)| && CodePoint(Utf8(c)) == c as int
    ensures forall k :: 1 <= k < |Utf8(c)| ==> 0x80 <= Utf8(c)[k] < 0xC0
  {
    SixBits(c as int);
  }

  // Encoded text decodes back to its code points, so no shorter or longer encoding would do.
  lemma {:induction false} DecodeEncode(s: string)
    ensures Decode(Encode(s)) == CodePoints(s)
  {
    if s == [] {
    } else {
      var c, rest := s[0], s[1..];
      Utf8Decodes(c);
      DecodeEncode(rest);
      var bytes := Encode(s);
      assert bytes[..|Utf8(c)|] == Utf8(c) && bytes[|Utf8(c)|..] == Encode(rest);
      assert CodePoints(s) == [c as int] + CodePoints(rest);
    }
  }

  ghost predicate SchemaValid(messages: seq<string>, maxTokens: nat) {
    && 1 <= |messages| <= MAX_MESSAGES
    && (forall m :: m in messages ==> 1 <= |m| <= MAX_CONTENT)
    && 1 <= maxTokens <= MAX_COMPLETION
  }

  ghost function ByteSum(messages: seq<string>): nat {
    if messages == [] then 0 else ByteSum(messages[..|messages| - 1]) + |Encode(messages[|messages| - 1])|
  }

  lemma {:induction false} ByteSumBounds(messages: seq<string>)
    requires forall m :: m in messages ==> 1 <= |m| <= MAX_CONTENT
    ensures |messages| <= ByteSum(messages) <= 4 * MAX_CONTENT * |messages|
  {
    if messages == [] {
    } else {
      ByteSumBounds(messages[..|messages| - 1]);
      assert messages[|messages| - 1] in messages;
    }
  }

  // Every schema-valid request reserves a positive amount that fits the 32-bit column.
  lemma ReservationFits(messages: seq<string>, maxTokens: nat)
    requires SchemaValid(messages, maxTokens)
    ensures 2 <= ByteSum(messages) + maxTokens <= 102_404_096 < INT32_MAX
  {
    ByteSumBounds(messages);
  }

  method ReservedTokens(messages: seq<string>, maxTokens: nat) returns (reserved: nat)
    ensures reserved == ByteSum(messages) + maxTokens
    ensures SchemaValid(messages, maxTokens) ==> 2 <= reserved <= 102_404_096
  {
    reserved := 0;
    for i := 0 to |messages|
      invariant reserved == ByteSum(messages[..i])
    {
      reserved := reserved + |Encode(messages[i])|;
      assert messages[..i + 1][..i] == messages[..i];
    }
    assert messages[..|messages|] == messages;
    reserved := reserved + maxTokens;
    if SchemaValid(messages, maxTokens) {
      ReservationFits(messages, maxTokens);
    }
  }

  // Both ends of the range are reached.
  function Filled(n: nat, c: char): string {
    seq(n, _ => c)
  }

  lemma {:induction false} FilledBytes(n: nat, c: char)
    ensures |Encode(Filled(n, c))| == n * |Utf8(c)|
  {
    if n == 0 {
    } else {
      FilledBytes(n - 1, c);
      assert Filled(n, c)[1..] == Filled(n - 1, c);
    }
  }

  lemma {:induction false} EqualMessages(messages: seq<string>, m: string)
    requires forall i :: 0 <= i < |messages| ==> messages[i] == m
    ensures ByteSum(messages) == Times(|messages|, |Encode(m)|)
  {
    if messages == [] {
    } else {
      EqualMessages(messages[..|messages| - 1], m);
    }
  }

  ghost function Times(n: nat, k: nat): (product: nat)
    ensures product == n * k
  {
    if n == 0 then 0 else Times(n - 1, k) + k
  }

  lemma {:induction false} RangeIsTight()
    ensures exists messages, maxTokens :: SchemaValid(messages, maxTokens) && ByteSum(messages) + maxTokens == 2
    ensures exists messages, maxTokens :: SchemaValid(messages, maxTokens) && ByteSum(messages) + maxTokens == 102_404_096
  {
    var short: seq<string> := seq(1, _ => Filled(1, 'a'));
    FilledBytes(1, 'a');
    EqualMessages(short, Filled(1, 'a'));
    assert SchemaValid(short, 1);
    var long: seq<string> := seq(MAX_MESSAGES, _ => Filled(MAX_CONTENT, '\U{10FFFF}'));
    FilledBytes(MAX_CONTENT, '\U{10FFFF}');
    EqualMessages(long, Filled(MAX_CONTENT, '\U{10FFFF}'));
    assert SchemaValid(long, MAX_COMPLETION);
  }
}
