/**
 `decodeURIComponent` (section 19.2.6.5 of ECMA-262) and the percent-encoding of path segments it
 undoes (section 2.1 of RFC 3986).
 */
module PercentCoding {
  import opened Prelude
  import opened Utf8

  function HexValue(c: char): Option<nat> {
    if '0' <= c <= '9' then Some(c as int - '0' as int)
    else if 'A' <= c <= 'F' then Some(c as int - 'A' as int + 10)
    else if 'a' <= c <= 'f' then Some(c as int - 'a' as int + 10)
    else None
  }

  function HexDigit(n: nat): (c: char)
    requires n < 16
    ensures HexValue(c) == Some(n)
  {
    if n < 10 then ('0' as int + n) as char else ('A' as int + n - 10) as char
  }

  /** The octet spelled `%XX` at position `i`. */
  function OctetAt(text: string, i: nat): Option<byte> {
    if i + 2 < |text| && text[i] == '%' && HexValue(text[i + 1]).Some? && HexValue(text[i + 2]).Some?
       && HexValue(text[i + 1]).value < 16 && HexValue(text[i + 2]).value < 16
    then Some(HexValue(text[i + 1]).value * 16 + HexValue(text[i + 2]).value)
    else None
  }

  /** `n` octets in a row from the start of the text. */
  function Octets(text: string, n: nat): Option<seq<byte>>
    decreases n
  {
    if n == 0 then Some([])
    else
      var first := OctetAt(text, 0);
      if first.None? then None
      else
        var rest := Octets(text[3..], n - 1);
        if rest.None? then None else Some([first.value] + rest.value)
  }

  lemma {:induction false} OctetsLength(text: string, n: nat)
    ensures Octets(text, n).Some? ==> 3 * n <= |text| && |Octets(text, n).value| == n
    decreases n
  {
    if n > 0 && OctetAt(text, 0).Some? {
      OctetsLength(text[3..], n - 1);
    }
  }

  /** The character encoded at a percent sign, and how many octets it took. */
  function EscapeAt(text: string): (r: Option<(char, nat)>)
    ensures r.Some? ==> 1 <= r.value.1 <= 4 && 3 * r.value.1 <= |text|
  {
    var lead := OctetAt(text, 0);
    if lead.None? then None
    else
      var n := SequenceLength(lead.value);
      OctetsLength(text, n);
      var octets := Octets(text, n);
      if n == 0 || octets.None? then None
      else
        var c := DecodeOne(octets.value);
        if c.None? then None else Some((c.value, n))
  }

  /** `decodeURIComponent`; None where it throws. */
  function Decode(text: string): Option<string>
    decreases |text|
  {
    if text == "" then Some("")
    else if text[0] != '%' then
      var rest := Decode(text[1..]);
      if rest.None? then None else Some([text[0]] + rest.value)
    else
      var escape := EscapeAt(text);
      if escape.None? then None
      else
        var rest := Decode(text[3 * escape.value.1..]);
        if rest.None? then None else Some([escape.value.0] + rest.value)
  }

  /** Decoding never lengthens; it leaves a text alone exactly when there is no percent sign in it, and
      shortens it otherwise. */
  lemma {:induction false} DecodeShrinks(text: string)
    ensures '%' !in text ==> Decode(text) == Some(text)
    ensures Decode(text).Some? && '%' in text ==> |Decode(text).value| < |text|
    decreases |text|
  {
    if text != "" {
      if text[0] != '%' {
        assert text == [text[0]] + text[1..];
        DecodeShrinks(text[1..]);
      } else if EscapeAt(text).Some? {
        DecodeShrinks(text[3 * EscapeAt(text).value.1..]);
      }
    }
  }

  // ---------------------------------------------------------------- encoding

  /** What `encodeURIComponent` leaves as it is. */
  predicate Unreserved(c: char) {
    'A' <= c <= 'Z' || 'a' <= c <= 'z' || '0' <= c <= '9' || c in "-_.!~*'()"
  }

  function EncodeOctet(b: byte): string {
    ['%', HexDigit(b / 16), HexDigit(b % 16)]
  }

  function EncodeOctets(bytes: seq<byte>): (text: string)
    ensures |text| == 3 * |bytes|
  {
    if bytes == [] then "" else EncodeOctet(bytes[0]) + EncodeOctets(bytes[1..])
  }

  /** Encode each segment and keep the slashes between them: character by character. */
  function EncodeChar(c: char): string {
    if c == '/' || Unreserved(c) then [c] else EncodeOctets(Utf8.Encode(c))
  }

  function EncodePath(text: string): string {
    if text == "" then "" else EncodeChar(text[0]) + EncodePath(text[1..])
  }

  /** `encodeURIComponent`, which encodes a slash too. */
  function EncodeComponent(text: string): string {
    if text == "" then ""
    else (if Unreserved(text[0]) then [text[0]] else EncodeOctets(Utf8.Encode(text[0]))) + EncodeComponent(text[1..])
  }

  lemma {:induction false} EncodesSegment(segment: string)
    requires '/' !in segment
    ensures EncodePath(segment) == EncodeComponent(segment)
  {
    if segment != "" {
      assert segment[0] in segment;
      EncodesSegment(segment[1..]);
    }
  }

  function EncodeTimes(text: string, n: nat): string {
    if n == 0 then text else EncodePath(EncodeTimes(text, n - 1))
  }

  lemma OctetReadsBack(b: byte, rest: string)
    ensures OctetAt(EncodeOctet(b) + rest, 0) == Some(b)
    ensures (EncodeOctet(b) + rest)[3..] == rest
  {
    var text := EncodeOctet(b) + rest;
    assert text[0] == '%' && text[1] == HexDigit(b / 16) && text[2] == HexDigit(b % 16);
  }

  lemma {:induction false} OctetsReadBack(bytes: seq<byte>, rest: string)
    ensures Octets(EncodeOctets(bytes) + rest, |bytes|) == Some(bytes)
    ensures (EncodeOctets(bytes) + rest)[3 * |bytes|..] == rest
  {
    var text := EncodeOctets(bytes) + rest;
    if bytes == [] {
      assert text == rest;
    } else {
      var tail := EncodeOctets(bytes[1..]) + rest;
      assert text == EncodeOctet(bytes[0]) + tail;
      OctetReadsBack(bytes[0], tail);
      OctetsReadBack(bytes[1..], rest);
      assert text[3 * |bytes|..] == text[3..][3 * (|bytes| - 1)..];
      assert bytes == [bytes[0]] + bytes[1..];
    }
  }

  lemma EscapeReadsBack(c: char, rest: string)
    ensures
      var bytes := Utf8.Encode(c);
      var text := EncodeOctets(bytes) + rest;
      && text[0] == '%' && EscapeAt(text) == Some((c, |bytes|)) && text[3 * |bytes|..] == rest
  {
    var bytes := Utf8.Encode(c);
    var text := EncodeOctets(bytes) + rest;
    OctetsReadBack(bytes, rest);
    assert text == EncodeOctet(bytes[0]) + (EncodeOctets(bytes[1..]) + rest);
    OctetReadsBack(bytes[0], EncodeOctets(bytes[1..]) + rest);
    EncodeSpells(c);
    DecodeOneInverts(bytes, c);
  }

  lemma EncodedCharReadsBack(c: char, rest: string)
    ensures Decode(EncodeChar(c) + rest) ==
            if Decode(rest).None? then None else Some([c] + Decode(rest).value)
  {
    var text := EncodeChar(c) + rest;
    if c == '/' || Unreserved(c) {
      assert text[0] == c && text[1..] == rest;
    } else {
      EscapeReadsBack(c, rest);
    }
  }

  /** Decoding undoes one layer of encoding. */
  lemma {:induction false} DecodeUndoesEncode(text: string)
    ensures Decode(EncodePath(text)) == Some(text)
  {
    if text != "" {
      DecodeUndoesEncode(text[1..]);
      EncodedCharReadsBack(text[0], EncodePath(text[1..]));
      assert text == [text[0]] + text[1..];
    }
  }

  predicate NeedsNoEncoding(text: string) {
    forall i :: 0 <= i < |text| ==> text[i] == '/' || Unreserved(text[i])
  }

  lemma {:induction false} PlainEncodesToItself(text: string)
    requires NeedsNoEncoding(text)
    ensures EncodePath(text) == text
  {
    if text != "" {
      assert NeedsNoEncoding(text[1..]);
      PlainEncodesToItself(text[1..]);
    }
  }

  lemma {:induction false} EncodeConcat(a: string, b: string)
    ensures EncodePath(a + b) == EncodePath(a) + EncodePath(b)
  {
    if a == "" {
      assert a + b == b;
    } else {
      assert (a + b)[0] == a[0] && (a + b)[1..] == a[1..] + b;
      EncodeConcat(a[1..], b);
    }
  }

  /** Something that needs encoding leaves a percent sign, at every layer. */
  lemma {:induction false} EncodedHasPercent(text: string)
    requires !NeedsNoEncoding(text)
    ensures '%' in EncodePath(text)
  {
    if text[0] != '/' && !Unreserved(text[0]) {
      var bytes := Utf8.Encode(text[0]);
      assert EncodePath(text)[0] == EncodeOctets(bytes)[0] == EncodeOctet(bytes[0])[0];
    } else {
      assert exists i :: 0 <= i < |text[1..]| && !(text[1..][i] == '/' || Unreserved(text[1..][i])) by {
        var i :| 0 <= i < |text| && !(text[i] == '/' || Unreserved(text[i]));
        assert text[1..][i - 1] == text[i];
      }
      EncodedHasPercent(text[1..]);
    }
  }

  // ---------------------------------------------------------------- exactly what decodes

  predicate HexOf(c: char, n: nat) {
    n < 16 && (c == "0123456789abcdef"[n] || c == "0123456789ABCDEF"[n])
  }

  /** `%XX` for each byte, in hexadecimal digits of either case. */
  predicate SpellsOctets(piece: string, bytes: seq<byte>) {
    && |piece| == 3 * |bytes|
    && (bytes != [] ==>
          && piece[0] == '%' && HexOf(piece[1], bytes[0] / 16) && HexOf(piece[2], bytes[0] % 16)
          && SpellsOctets(piece[3..], bytes[1..]))
  }

  /** A character stands for itself, unless it is a percent sign, or for its encoded bytes. */
  predicate SpellsChar(piece: string, c: char) {
    (piece == [c] && c != '%') || SpellsOctets(piece, Utf8.Encode(c))
  }

  predicate SpellsAll(text: string, decoded: string)
    decreases |decoded|
  {
    if decoded == "" then text == ""
    else exists k :: 0 <= k <= |text| && SpellsChar(text[..k], decoded[0]) && SpellsAll(text[k..], decoded[1..])
  }

  lemma HexIff(c: char, n: nat)
    requires n < 16
    ensures HexValue(c) == Some(n) <==> HexOf(c, n)
  {
    var lower, upper := "0123456789abcdef", "0123456789ABCDEF";
    assert if n < 10 then lower[n] as int == 48 + n else lower[n] as int == 87 + n;
    assert if n < 10 then upper[n] as int == 48 + n else upper[n] as int == 55 + n;
  }

  lemma OctetIff(text: string, b: byte)
    ensures OctetAt(text, 0) == Some(b) <==>
            |text| > 2 && text[0] == '%' && HexOf(text[1], b / 16) && HexOf(text[2], b % 16)
  {
    if |text| > 2 {
      HexIff(text[1], b / 16);
      HexIff(text[2], b % 16);
      DigitsTell(HexValue(text[1]), HexValue(text[2]), b);
    }
  }

  lemma DigitsTell(high: Option<nat>, low: Option<nat>, b: byte)
    ensures high.Some? && low.Some? && high.value < 16 && low.value < 16 ==>
              (high.value * 16 + low.value == b <==> high == Some(b / 16) && low == Some(b % 16))
  {
  }

  lemma {:induction false} OctetsIff(text: string, bytes: seq<byte>)
    ensures Octets(text, |bytes|) == Some(bytes) <==>
            3 * |bytes| <= |text| && SpellsOctets(text[..3 * |bytes|], bytes)
  {
    OctetsLength(text, |bytes|);
    if bytes != [] {
      var n := |bytes|;
      OctetIff(text, bytes[0]);
      if 3 * n <= |text| {
        OctetsIff(text[3..], bytes[1..]);
        assert text[..3 * n][3..] == text[3..][..3 * (n - 1)];
      }
      assert bytes == [bytes[0]] + bytes[1..];
    }
  }

  lemma SpelledLeads(text: string, k: nat, c: char)
    requires k <= |text| && SpellsChar(text[..k], c)
    ensures k > 0
    ensures text[0] != '%' ==> k == 1 && text[0] == c
    ensures text[0] == '%' ==> EscapeAt(text) == Some((c, |Utf8.Encode(c)|)) && k == 3 * |Utf8.Encode(c)|
  {
    var bytes := Utf8.Encode(c);
    assert text[..k] != "" ==> text[..k][0] == text[0];
    if SpellsOctets(text[..k], bytes) {
      OctetsIff(text, bytes);
      OctetIff(text, bytes[0]);
      EncodeSpells(c);
      DecodeOneInverts(bytes, c);
    }
  }

  lemma EscapeIsSpelled(text: string)
    requires text != "" && text[0] == '%' && EscapeAt(text).Some?
    ensures
      var (c, n) := EscapeAt(text).value;
      3 * n <= |text| && SpellsChar(text[..3 * n], c)
  {
    var (c, n) := EscapeAt(text).value;
    OctetsLength(text, n);
    var bytes := Octets(text, n).value;
    OctetsIff(text, bytes);
    DecodeOneInverts(bytes, c);
  }

  /** A text decodes to exactly what it spells, character by character, in hexadecimal digits of either case; and it
      decodes at all only if it spells something. */
  lemma {:induction false} DecodesIffSpelled(text: string, decoded: string)
    ensures Decode(text) == Some(decoded) <==> SpellsAll(text, decoded)
    decreases |text|
  {
    if Decode(text) == Some(decoded) && text != "" {
      var k := 1;
      if text[0] == '%' {
        EscapeIsSpelled(text);
        k := 3 * EscapeAt(text).value.1;
      } else {
        assert text[..1] == [text[0]];
      }
      assert decoded == [decoded[0]] + decoded[1..];
      DecodesIffSpelled(text[k..], decoded[1..]);
      assert SpellsChar(text[..k], decoded[0]) && SpellsAll(text[k..], decoded[1..]);
    }
    if SpellsAll(text, decoded) && decoded != "" {
      var k :| 0 <= k <= |text| && SpellsChar(text[..k], decoded[0]) && SpellsAll(text[k..], decoded[1..]);
      SpelledLeads(text, k, decoded[0]);
      DecodesIffSpelled(text[k..], decoded[1..]);
      assert decoded == [decoded[0]] + decoded[1..];
    }
  }
}
