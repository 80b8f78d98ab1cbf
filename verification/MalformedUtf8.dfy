/**
 What the streaming decoder makes of malformed input (section 8.1.1 of the WHATWG Encoding Standard): every
 stretch that began as a character and went no further, and every byte that begins none, becomes one
 replacement character, and reading goes on with the byte that did not fit.
 */
module MalformedUtf8 {
  import opened Prelude
  import opened Utf8

  /** Some character's encoding begins with these bytes. */
  ghost predicate Begins(bytes: seq<byte>) {
    exists c: char :: bytes <= Encode(c)
  }

  // ---------------------------------------------------------------- one more byte that fits

  lemma LeadBegins(b: byte)
    requires StepStart(b).text != [REPLACEMENT] || b < 0x80
    ensures Begins([b])
  {
    var n :=
      if b < 0x80 then b
      else if b < 0xE0 then (b - 0xC0) * 64
      else if b == 0xE0 then 0x800
      else if b < 0xF0 then (b - 0xE0) * 4096
      else if b == 0xF0 then 0x10000
      else (b - 0xF0) * 262144;
    assert Encode(n as char)[0] == b;
    assert [b] <= Encode(n as char);
  }

  /** The bits a decoder holds inside a sequence, when it was fed the first bytes of a character. */
  lemma AfterLead(c: char)
    requires |Encode(c)| > 1
    ensures
      var fed := StepStart(Encode(c)[0]);
      fed.text == "" && fed.decoder.More? && fed.decoder.needed == |Encode(c)| - 1
  {
  }

  lemma SecondOfTwo(lead: byte, b: byte)
    requires 0xC2 <= lead <= 0xDF && 0x80 <= b <= 0xBF
    ensures Begins([lead, b])
  {
    var n := (lead - 0xC0) * 64 + (b - 0x80);
    assert Encode(n as char) == [lead, b];
  }

  lemma SecondOfThree(lead: byte, b: byte)
    requires 0xE0 <= lead <= 0xEF
    requires (if lead == 0xE0 then 0xA0 else 0x80) <= b <= (if lead == 0xED then 0x9F else 0xBF)
    ensures Begins([lead, b])
  {
    var n := (lead - 0xE0) * 4096 + (b - 0x80) * 64;
    assert n / 4096 == lead - 0xE0 && n / 64 % 64 == b - 0x80;
    assert Encode(n as char)[..2] == [lead, b];
  }

  lemma SecondOfFour(lead: byte, b: byte)
    requires 0xF0 <= lead <= 0xF4
    requires (if lead == 0xF0 then 0x90 else 0x80) <= b <= (if lead == 0xF4 then 0x8F else 0xBF)
    ensures Begins([lead, b])
  {
    var n := (lead - 0xF0) * 262144 + (b - 0x80) * 4096;
    assert n / 262144 == lead - 0xF0 && n / 4096 % 64 == b - 0x80;
    assert Encode(n as char)[..2] == [lead, b];
  }

  lemma SecondBegins(lead: byte, b: byte)
    requires StepStart(lead).decoder.More?
    requires StepStart(lead).decoder.lower <= b <= StepStart(lead).decoder.upper
    ensures Begins([lead, b])
  {
    if lead < 0xE0 {
      SecondOfTwo(lead, b);
    } else if lead < 0xF0 {
      SecondOfThree(lead, b);
    } else {
      SecondOfFour(lead, b);
    }
  }

  lemma ThirdOfThree(c: char, b: byte)
    requires |Encode(c)| == 3 && 0x80 <= b <= 0xBF
    ensures Begins(Encode(c)[..2] + [b])
  {
    var n := (c as int) / 64 * 64 + (b - 0x80);
    Digits(c as int);
    assert n / 64 == (c as int) / 64 && n % 64 == b - 0x80;
    assert n / 4096 == (c as int) / 4096;
    assert Encode(n as char) == Encode(c)[..2] + [b];
  }

  lemma ThirdOfFour(c: char, b: byte)
    requires |Encode(c)| == 4 && 0x80 <= b <= 0xBF
    ensures Begins(Encode(c)[..2] + [b])
  {
    var n := (c as int) / 4096 * 4096 + (b - 0x80) * 64;
    Digits(c as int);
    assert n / 4096 == (c as int) / 4096 && n / 64 % 64 == b - 0x80;
    assert n / 262144 == (c as int) / 262144;
    assert Encode(n as char)[..3] == Encode(c)[..2] + [b];
  }

  lemma FourthBegins(c: char, b: byte)
    requires |Encode(c)| == 4 && 0x80 <= b <= 0xBF
    ensures Begins(Encode(c)[..3] + [b])
  {
    var n := (c as int) / 64 * 64 + (b - 0x80);
    Digits(c as int);
    assert n / 64 == (c as int) / 64 && n % 64 == b - 0x80;
    assert n / 4096 == (c as int) / 4096 && n / 262144 == (c as int) / 262144;
    assert Encode(n as char) == Encode(c)[..3] + [b];
  }

  // ---------------------------------------------------------------- a sequence in progress

  /** After the first bytes of a character the decoder has said nothing, and a byte it would take goes on beginning
      some character. */
  ghost predicate Holds(fed: Fed, bytes: seq<byte>) {
    && fed.text == "" && fed.decoder.More?
    && forall b: byte :: fed.decoder.lower <= b <= fed.decoder.upper ==> Begins(bytes + [b])
  }

  lemma HoldsOne(c: char)
    requires |Encode(c)| > 1
    ensures Holds(Feed(Start, Encode(c)[..1]), Encode(c)[..1])
  {
    var lead := Encode(c)[0];
    assert Encode(c)[..1] == [lead];
    FeedLast(Start, lead);
    AfterLead(c);
    forall b: byte | StepStart(lead).decoder.lower <= b <= StepStart(lead).decoder.upper
      ensures Begins([lead] + [b])
    {
      SecondBegins(lead, b);
      assert [lead] + [b] == [lead, b];
    }
  }

  lemma AfterSecond(c: char)
    requires |Encode(c)| > 2
    ensures
      var e := Encode(c);
      var fed := Feed(Start, e[..2]);
      && fed.text == "" && fed.decoder.More? && fed.decoder.needed == |e| - 2
      && fed.decoder.lower == 0x80 && fed.decoder.upper == 0xBF
  {
    var e := Encode(c);
    AfterLead(c);
    assert e[..2] == [e[0]] + [e[1]];
    FeedThrough(Start, e[0], [e[1]]);
    FeedLast(StepStart(e[0]).decoder, e[1]);
  }

  lemma HoldsTwo(c: char)
    requires |Encode(c)| > 2
    ensures Holds(Feed(Start, Encode(c)[..2]), Encode(c)[..2])
  {
    AfterSecond(c);
    forall b: byte | 0x80 <= b <= 0xBF ensures Begins(Encode(c)[..2] + [b]) {
      if |Encode(c)| == 3 {
        ThirdOfThree(c, b);
      } else {
        ThirdOfFour(c, b);
      }
    }
  }

  lemma HoldsThree(c: char)
    requires |Encode(c)| > 3
    ensures Holds(Feed(Start, Encode(c)[..3]), Encode(c)[..3])
  {
    var e := Encode(c);
    AfterSecond(c);
    assert e[..3] == e[..2] + [e[2]];
    FeedConcat(Start, e[..2], [e[2]]);
    FeedLast(Feed(Start, e[..2]).decoder, e[2]);
    forall b: byte | 0x80 <= b <= 0xBF ensures Begins(e[..3] + [b]) {
      FourthBegins(c, b);
    }
  }

  /** The first bytes of a character are held back until it is known how they go on. */
  lemma UnfinishedIsHeld(bytes: seq<byte>, c: char)
    requires bytes != [] && bytes < Encode(c)
    ensures Holds(Feed(Start, bytes), bytes)
  {
    assert bytes == Encode(c)[..|bytes|];
    match |bytes|
    case 1 => HoldsOne(c);
    case 2 => HoldsTwo(c);
    case _ => HoldsThree(c);
  }

  // ---------------------------------------------------------------- main results

  lemma FeedOne(d: Decoder, b: byte, rest: seq<byte>)
    ensures Feed(d, [b] + rest).text == StepByte(d, b).text + Feed(StepByte(d, b).decoder, rest).text
  {
    assert ([b] + rest)[1..] == rest;
  }

  lemma StrayIsReplaced(b: byte, rest: seq<byte>)
    requires !Begins([b])
    ensures Feed(Start, [b] + rest).text == [REPLACEMENT] + Feed(Start, rest).text
  {
    if StepStart(b).text != [REPLACEMENT] || b < 0x80 {
      LeadBegins(b);
    }
    FeedOne(Start, b, rest);
  }

  lemma ReadAgain(d: Decoder, b: byte, rest: seq<byte>)
    requires d.More? && !(d.lower <= b <= d.upper)
    ensures Feed(d, [b] + rest).text == [REPLACEMENT] + Feed(Start, [b] + rest).text
  {
    FeedOne(d, b, rest);
    FeedOne(Start, b, rest);
    assert StepByte(d, b) == Fed(StepByte(Start, b).decoder, [REPLACEMENT] + StepByte(Start, b).text);
  }

  lemma CutShortIsReplaced(bytes: seq<byte>, c: char, b: byte, rest: seq<byte>)
    requires bytes != [] && bytes < Encode(c) && !Begins(bytes + [b])
    ensures Feed(Start, bytes + ([b] + rest)).text == [REPLACEMENT] + Feed(Start, [b] + rest).text
  {
    UnfinishedIsHeld(bytes, c);
    FeedConcat(Start, bytes, [b] + rest);
    ReadAgain(Feed(Start, bytes).decoder, b, rest);
  }

  /** The decoder, on all input: a whole character is read as itself whatever follows; the first bytes of one, at
      the end of the input, wait; cut short by a byte they cannot go on with they are one replacement character,
      however many they are, and reading goes on at that byte; and so is a byte that begins no character. */
  lemma MalformedIsReplaced(c: char, bytes: seq<byte>, b: byte, rest: seq<byte>)
    ensures Feed(Start, Encode(c) + rest).text == [c] + Feed(Start, rest).text
    ensures bytes < Encode(c) ==> Feed(Start, bytes).text == ""
    ensures bytes != [] && bytes < Encode(c) && !Begins(bytes + [b]) ==>
              Feed(Start, bytes + ([b] + rest)).text == "\U{FFFD}" + Feed(Start, [b] + rest).text
    ensures !Begins([b]) ==> Feed(Start, [b] + rest).text == "\U{FFFD}" + Feed(Start, rest).text
  {
    FeedEncoded(c);
    FeedConcat(Start, Encode(c), rest);
    if bytes != [] && bytes < Encode(c) {
      UnfinishedIsHeld(bytes, c);
      if !Begins(bytes + [b]) {
        CutShortIsReplaced(bytes, c, b, rest);
      }
    }
    if !Begins([b]) {
      StrayIsReplaced(b, rest);
    }
  }
}
