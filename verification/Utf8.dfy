/**
 UTF-8, as both byte boundaries of the program use it: the encoding of one character, the strict
 reading of one encoded character, and the streaming decoder of the WHATWG Encoding Standard
 (section 8.1.1), which replaces malformed input and never fails. A string is a sequence of Unicode
 scalar values.
 */
module Utf8 {
  import opened Prelude

  type byte = b: int | 0 <= b < 256

  predicate IsScalar(n: int) {
    0 <= n < 0xD800 || 0xE000 <= n < 0x110000
  }

  const REPLACEMENT: char := '\U{FFFD}'
  const BOM: char := '\U{FEFF}'

  function ToChar(n: int): char {
    if IsScalar(n) then n as char else REPLACEMENT
  }

  function Encode(c: char): (bytes: seq<byte>)
    ensures 1 <= |bytes| <= 4
  {
    var n := c as int;
    if n < 0x80 then [n]
    else if n < 0x800 then [0xC0 + n / 64, 0x80 + n % 64]
    else if n < 0x10000 then [0xE0 + n / 4096, 0x80 + n / 64 % 64, 0x80 + n % 64]
    else [0xF0 + n / 262144, 0x80 + n / 4096 % 64, 0x80 + n / 64 % 64, 0x80 + n % 64]
  }

  function EncodeAll(text: string): seq<byte> {
    if text == "" then [] else Encode(text[0]) + EncodeAll(text[1..])
  }

  /** The length a leading byte announces; 0 when it cannot lead. */
  function SequenceLength(b: byte): (n: nat)
    ensures n <= 4
  {
    if b < 0x80 then 1
    else if b < 0xC0 then 0
    else if b < 0xE0 then 2
    else if b < 0xF0 then 3
    else if b < 0xF8 then 4
    else 0
  }

  /** The number the bits of a sequence spell, whether or not the sequence is well formed. */
  function Spelled(bytes: seq<byte>): int
    requires 1 <= |bytes| <= 4
  {
    var lead := bytes[0] as int;
    match |bytes|
    case 1 => lead
    case 2 => lead % 32 * 64 + Low6(bytes[1])
    case 3 => lead % 16 * 4096 + Low6(bytes[1]) * 64 + Low6(bytes[2])
    case _ => lead % 8 * 262144 + Low6(bytes[1]) * 4096 + Low6(bytes[2]) * 64 + Low6(bytes[3])
  }

  function Low6(b: byte): (low: int)
    ensures 0x80 <= b < 0xC0 ==> low == b - 0x80
  {
    (b as int) % 64
  }

  /** Strict reading: the character these bytes encode, if they are exactly its encoding. */
  function DecodeOne(bytes: seq<byte>): Option<char> {
    if 1 <= |bytes| <= 4 && IsScalar(Spelled(bytes)) && Encode(Spelled(bytes) as char) == bytes
    then Some(Spelled(bytes) as char)
    else None
  }

  /** The base-64 digits of a code point. */
  lemma Digits(n: nat)
    ensures n == n / 64 * 64 + n % 64
    ensures n / 64 == n / 4096 * 64 + n / 64 % 64
    ensures n / 4096 == n / 262144 * 64 + n / 4096 % 64
  {
    assert n / 4096 == n / 64 / 64;
    assert n / 262144 == n / 4096 / 64;
  }

  lemma EncodeSpells(c: char)
    ensures Spelled(Encode(c)) == c as int
    ensures SequenceLength(Encode(c)[0]) == |Encode(c)|
  {
    var n := c as int;
    var e := Encode(c);
    Digits(n);
    if |e| == 2 {
      assert (e[0] as int) % 32 == n / 64;
    } else if |e| == 3 {
      assert (e[0] as int) % 16 == n / 4096;
    } else if |e| == 4 {
      assert (e[0] as int) % 8 == n / 262144;
    }
  }

  /** Decoding is the exact inverse of encoding, in both directions. */
  lemma DecodeOneInverts(bytes: seq<byte>, c: char)
    ensures DecodeOne(bytes) == Some(c) <==> bytes == Encode(c)
  {
    EncodeSpells(c);
  }

  // ---------------------------------------------------------------- the streaming decoder

  /** Between sequences, or inside one: the bits so far, the bytes still needed, and the range the next
      byte must fall in. */
  datatype Decoder = Start | More(bits: int, needed: nat, lower: int, upper: int)

  datatype Fed = Fed(decoder: Decoder, text: string)

  function StepStart(b: byte): Fed {
    if b < 0x80 then Fed(Start, [ToChar(b)])
    else if 0xC2 <= b <= 0xDF then Fed(More(b - 0xC0, 1, 0x80, 0xBF), "")
    else if 0xE0 <= b <= 0xEF then
      Fed(More(b - 0xE0, 2, if b == 0xE0 then 0xA0 else 0x80, if b == 0xED then 0x9F else 0xBF), "")
    else if 0xF0 <= b <= 0xF4 then
      Fed(More(b - 0xF0, 3, if b == 0xF0 then 0x90 else 0x80, if b == 0xF4 then 0x8F else 0xBF), "")
    else Fed(Start, [REPLACEMENT])
  }

  /** One byte: a byte out of range ends the sequence with a replacement and is read again from the start. */
  function StepByte(d: Decoder, b: byte): Fed {
    match d
    case Start => StepStart(b)
    case More(bits, needed, lower, upper) =>
      if !(lower <= b <= upper) then
        var again := StepStart(b);
        Fed(again.decoder, [REPLACEMENT] + again.text)
      else if needed <= 1 then Fed(Start, [ToChar(bits * 64 + b - 0x80)])
      else Fed(More(bits * 64 + b - 0x80, needed - 1, 0x80, 0xBF), "")
  }

  function Feed(d: Decoder, bytes: seq<byte>): Fed
    decreases |bytes|
  {
    if bytes == [] then Fed(d, "")
    else
      var one := StepByte(d, bytes[0]);
      var rest := Feed(one.decoder, bytes[1..]);
      Fed(rest.decoder, one.text + rest.text)
  }

  /** Feeding any machine that turns a state and a byte into a state and some text. */
  function FeedWith(step: (Decoder, byte) -> Fed, d: Decoder, bytes: seq<byte>): Fed
    decreases |bytes|
  {
    if bytes == [] then Fed(d, "")
    else
      var one := step(d, bytes[0]);
      var rest := FeedWith(step, one.decoder, bytes[1..]);
      Fed(rest.decoder, one.text + rest.text)
  }

  lemma {:induction false} FeedWithConcat(step: (Decoder, byte) -> Fed, d: Decoder, a: seq<byte>, b: seq<byte>)
    ensures
      var first := FeedWith(step, d, a);
      var second := FeedWith(step, first.decoder, b);
      FeedWith(step, d, a + b) == Fed(second.decoder, first.text + second.text)
    decreases |a|
  {
    if a == [] {
      assert a + b == b;
    } else {
      assert (a + b)[0] == a[0] && (a + b)[1..] == a[1..] + b;
      FeedWithConcat(step, step(d, a[0]).decoder, a[1..], b);
    }
  }

  lemma {:induction false} FeedIsFeedWith(d: Decoder, bytes: seq<byte>)
    ensures Feed(d, bytes) == FeedWith(StepByte, d, bytes)
    decreases |bytes|
  {
    if bytes != [] {
      FeedIsFeedWith(StepByte(d, bytes[0]).decoder, bytes[1..]);
    }
  }

  /** Cutting the stream changes nothing: decoding chunk after chunk is decoding the whole. */
  lemma FeedConcat(d: Decoder, a: seq<byte>, b: seq<byte>)
    ensures Feed(d, a + b).decoder == Feed(Feed(d, a).decoder, b).decoder
    ensures Feed(d, a + b).text == Feed(d, a).text + Feed(Feed(d, a).decoder, b).text
  {
    FeedIsFeedWith(d, a);
    FeedIsFeedWith(Feed(d, a).decoder, b);
    FeedIsFeedWith(d, a + b);
    FeedWithConcat(StepByte, d, a, b);
  }

  /** Overlong forms are shut out: what a sequence in progress can spell is at least 0x80. */
  ghost predicate InProgress(d: Decoder) {
    match d
    case Start => true
    case More(bits, needed, lower, upper) =>
      && 1 <= needed <= 3 && 0x80 <= lower <= upper <= 0xBF && 0 <= bits
      && (needed == 1 ==> bits >= 2)
      && (needed == 2 ==> bits * 64 + lower - 0x80 >= 2)
      && (needed == 3 ==> bits * 64 + lower - 0x80 >= 1)
  }

  /** A line feed comes out exactly where byte 0x0A goes in, even amid malformed input. */
  lemma StepNewline(d: Decoder, b: byte)
    requires InProgress(d)
    ensures InProgress(StepByte(d, b).decoder)
    ensures '\n' in StepByte(d, b).text <==> b == 10
  {
  }

  lemma {:induction false} FeedNewline(d: Decoder, bytes: seq<byte>)
    requires InProgress(d)
    ensures '\n' in Feed(d, bytes).text <==> 10 in bytes
    ensures InProgress(Feed(d, bytes).decoder)
    decreases |bytes|
  {
    if bytes != [] {
      StepNewline(d, bytes[0]);
      FeedNewline(StepByte(d, bytes[0]).decoder, bytes[1..]);
      assert bytes == [bytes[0]] + bytes[1..];
    }
  }

  lemma FeedThrough(d: Decoder, b: byte, rest: seq<byte>)
    requires StepByte(d, b).text == ""
    ensures Feed(d, [b] + rest) == Feed(StepByte(d, b).decoder, rest)
  {
    assert ([b] + rest)[1..] == rest;
  }

  lemma FeedLast(d: Decoder, b: byte)
    ensures Feed(d, [b]) == StepByte(d, b)
  {
    assert [b][1..] == [];
  }

  lemma FeedTwo(c: char)
    requires |Encode(c)| == 2
    ensures Feed(Start, Encode(c)) == Fed(Start, [c])
  {
    var n := c as int;
    var e := Encode(c);
    Digits(n);
    assert e == [e[0]] + [e[1]];
    FeedThrough(Start, e[0], [e[1]]);
    FeedLast(More(n / 64, 1, 0x80, 0xBF), e[1]);
  }

  lemma FeedThree(c: char)
    requires |Encode(c)| == 3
    ensures Feed(Start, Encode(c)) == Fed(Start, [c])
  {
    var n := c as int;
    var e := Encode(c);
    Digits(n);
    assert e == [e[0]] + ([e[1]] + [e[2]]);
    FeedThrough(Start, e[0], [e[1]] + [e[2]]);
    var d1 := StepByte(Start, e[0]).decoder;
    FeedThrough(d1, e[1], [e[2]]);
    FeedLast(More(n / 64, 1, 0x80, 0xBF), e[2]);
  }

  lemma FeedFour(c: char)
    requires |Encode(c)| == 4
    ensures Feed(Start, Encode(c)) == Fed(Start, [c])
  {
    var n := c as int;
    var e := Encode(c);
    Digits(n);
    assert e == [e[0]] + ([e[1]] + ([e[2]] + [e[3]]));
    FeedThrough(Start, e[0], [e[1]] + ([e[2]] + [e[3]]));
    var d1 := StepByte(Start, e[0]).decoder;
    FeedThrough(d1, e[1], [e[2]] + [e[3]]);
    var d2 := More(n / 4096, 2, 0x80, 0xBF);
    FeedThrough(d2, e[2], [e[3]]);
    FeedLast(More(n / 64, 1, 0x80, 0xBF), e[3]);
  }

  /** The streaming decoder reads back every encoded character. */
  lemma FeedEncoded(c: char)
    ensures Feed(Start, Encode(c)) == Fed(Start, [c])
  {
    match |Encode(c)|
    case 1 => FeedLast(Start, Encode(c)[0]);
    case 2 => FeedTwo(c);
    case 3 => FeedThree(c);
    case _ => FeedFour(c);
  }

  lemma FeedAfter(a: seq<byte>, b: seq<byte>, first: string, rest: string)
    requires Feed(Start, a) == Fed(Start, first) && Feed(Start, b) == Fed(Start, rest)
    ensures Feed(Start, a + b) == Fed(Start, first + rest)
  {
    FeedConcat(Start, a, b);
  }

  lemma {:induction false} FeedEncodedAll(text: string)
    ensures Feed(Start, EncodeAll(text)) == Fed(Start, text)
  {
    if text != "" {
      FeedEncoded(text[0]);
      FeedEncodedAll(text[1..]);
      FeedAfter(Encode(text[0]), EncodeAll(text[1..]), [text[0]], text[1..]);
      assert text == [text[0]] + text[1..];
    }
  }

  /** The decoder object drops one byte-order mark at the very start of the stream. */
  function DropBom(text: string): string {
    if text != "" && text[0] == BOM then text[1..] else text
  }
}
