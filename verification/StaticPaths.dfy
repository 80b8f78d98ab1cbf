/**
 Request paths of the Whispering assets (apps/epicenter/src/static-assets.ts, `whisperingRelativePath`
 and `resolveWhispering`): decode to a fixpoint within a bound, refuse anything that could climb.
 */
module StaticPaths {
  import opened Prelude
  import opened Strings
  import opened PercentCoding
  import opened Paths
  import Utf8

  const WHISPERING_PREFIX := "/apps/whispering/"

  function Lower(c: char): char {
    if 'A' <= c <= 'Z' then (c as int + 32) as char else c
  }

  predicate SeparatorAt(text: string, i: nat) {
    && i + 2 < |text| && text[i] == '%'
    && var pair := [Lower(text[i + 1]), Lower(text[i + 2])];
       pair == "00" || pair == "2f" || pair == "5c"
  }

  /** A backslash, a NUL, or an encoded NUL, slash or backslash. */
  predicate Blocked(text: string) {
    '\\' in text || '\0' in text || exists i :: 0 <= i < |text| && SeparatorAt(text, i)
  }

  /** The decode loop from the given depth. */
  function DecodeLoop(text: string, depth: nat): Option<string>
    requires depth < 8
    decreases 8 - depth
  {
    if Blocked(text) then None
    else
      var next := Decode(text);
      if next.None? then None
      else if next.value == text then Some(text)
      else if depth == 7 then None
      else DecodeLoop(next.value, depth + 1)
  }

  predicate SegmentsOk(requested: string) {
    var segments := Split(requested);
    && !StartsWith(requested, "/")
    && forall i :: 0 <= i < |segments| ==>
         segments[i] != "." && segments[i] != ".." && (segments[i] == "" ==> i == |segments| - 1)
  }

  function Strip(decoded: string): Option<string> {
    if !StartsWith(decoded, WHISPERING_PREFIX) then None
    else
      var requested := decoded[|WHISPERING_PREFIX|..];
      if SegmentsOk(requested) then Some(requested) else None
  }

  function RelativePath(pathname: string): Option<string> {
    var decoded := DecodeLoop(pathname, 0);
    if decoded.None? then None else Strip(decoded.value)
  }

  /** `whisperingRelativePath`: the bounded loop over `decoded`, then the segment checks. */
  method WhisperingRelativePath(pathname: string) returns (relative: Option<string>)
    ensures relative == RelativePath(pathname)
  {
    var decoded := pathname;
    var depth := 0;
    while true
      invariant 0 <= depth < 8
      invariant DecodeLoop(decoded, depth) == DecodeLoop(pathname, 0)
      decreases 8 - depth
    {
      if Blocked(decoded) {
        return None;
      }
      var next := Decode(decoded);
      if next.None? {
        return None;
      }
      if next.value == decoded {
        break;
      }
      if depth == 7 {
        return None;
      }
      decoded := next.value;
      depth := depth + 1;
    }
    relative := Strip(decoded);
  }

  // ---------------------------------------------------------------- safety

  lemma {:induction false} LoopEndsClean(text: string, depth: nat)
    requires depth < 8 && DecodeLoop(text, depth).Some?
    ensures
      var end := DecodeLoop(text, depth).value;
      '%' !in end && '\\' !in end && '\0' !in end && Decode(end) == Some(end)
    decreases 8 - depth
  {
    DecodeShrinks(text);
    if Decode(text).value != text {
      LoopEndsClean(Decode(text).value, depth + 1);
    }
  }

  /** The segments of the asset a relative path names: a trailing slash names the directory itself. */
  function AssetSegments(relative: string): seq<string> {
    var pieces := Split(relative);
    if pieces[|pieces| - 1] == "" then pieces[..|pieces| - 1] else pieces
  }

  lemma AssetSegmentsPlain(relative: string)
    requires SegmentsOk(relative)
    ensures Normal(AssetSegments(relative))
  {
  }

  lemma {:induction false} WalkAppend(at: seq<string>, a: seq<string>, b: seq<string>)
    ensures Walk(at, a + b) == Walk(Walk(at, a), b)
    decreases |a|
  {
    if a == [] {
      assert a + b == b;
    } else {
      assert (a + b)[1..] == a[1..] + b;
      var next :=
        if a[0] == "" || a[0] == "." then at
        else if a[0] == ".." then (if at == [] then [] else at[..|at| - 1])
        else at + [a[0]];
      WalkAppend(next, a[1..], b);
    }
  }

  lemma WalkStays(at: seq<string>)
    ensures Walk(at, [""]) == at
  {
    assert [""][1..] == [];
  }

  lemma ResolvesBelow(relative: string, root: seq<string>)
    requires SegmentsOk(relative) && Normal(root)
    ensures Walk(root, Split(relative)) == root + AssetSegments(relative)
    ensures IsContained(root, Walk(root, Split(relative)))
  {
    AssetSegmentsPlain(relative);
    var pieces, segments := Split(relative), AssetSegments(relative);
    WalkDescends(root, segments);
    if pieces != segments {
      assert pieces == segments + [""];
      WalkAppend(root, segments, [""]);
      WalkStays(root + segments);
    }
    ContainedIffPrefix(root, root + segments);
  }

  /** Whatever is accepted holds no percent sign, backslash, NUL or climbing segment, is a fixpoint of
      decoding, and resolves to exactly the root's segments followed by its own: inside the root by the
      host's own containment test. */
  lemma AcceptedStaysInside(pathname: string, root: seq<string>)
    requires Normal(root) && RelativePath(pathname).Some?
    ensures
      var relative := RelativePath(pathname).value;
      && '%' !in relative && '\\' !in relative && '\0' !in relative
      && Decode(relative) == Some(relative)
      && Walk(root, Split(relative)) == root + AssetSegments(relative)
      && IsContained(root, Walk(root, Split(relative)))
  {
    LoopEndsClean(pathname, 0);
    var decoded := DecodeLoop(pathname, 0).value;
    var relative := RelativePath(pathname).value;
    assert decoded == WHISPERING_PREFIX + relative;
    DecodeShrinks(relative);
    ResolvesBelow(relative, root);
  }

  // ---------------------------------------------------------------- round trip, layer by layer

  /** A relative path a build can contain: checked segments, nothing the loop refuses. */
  predicate CleanName(relative: string) {
    SegmentsOk(relative) && '%' !in relative && '\\' !in relative && '\0' !in relative
  }

  /** No encoded separator in an encoded text: octets 0x00, 0x2F and 0x5C come only from the characters
      themselves, and those are absent or kept as they are. */
  lemma OctetIsNoSeparator(b: Utf8.byte, rest: string)
    requires b != 0 && b != 0x2F && b != 0x5C
    ensures !SeparatorAt(EncodeOctet(b) + rest, 0)
  {
    var text := EncodeOctet(b) + rest;
    assert text[1] == HexDigit(b / 16) && text[2] == HexDigit(b % 16);
    HexLower(b / 16);
    HexLower(b % 16);
  }

  lemma HexLower(n: nat)
    requires n < 16
    ensures Lower(HexDigit(n)) == '0' <==> n == 0
    ensures Lower(HexDigit(n)) == '2' <==> n == 2
    ensures Lower(HexDigit(n)) == '5' <==> n == 5
    ensures Lower(HexDigit(n)) == 'f' <==> n == 15
    ensures Lower(HexDigit(n)) == 'c' <==> n == 12
  {
  }

  predicate Open(text: string) {
    forall i :: 0 <= i < |text| ==> !SeparatorAt(text, i)
  }

  lemma OpenCons(text: string)
    requires text != "" && text[0] != '%' && Open(text[1..])
    ensures Open(text)
  {
    forall i | 0 <= i < |text| ensures !SeparatorAt(text, i) {
      if i > 0 {
        assert !SeparatorAt(text[1..], i - 1);
      }
    }
  }

  lemma {:induction false} OctetsOpen(bytes: seq<Utf8.byte>, rest: string)
    requires forall i :: 0 <= i < |bytes| ==> bytes[i] != 0 && bytes[i] != 0x2F && bytes[i] != 0x5C
    requires Open(rest)
    ensures Open(EncodeOctets(bytes) + rest)
  {
    if bytes == [] {
      assert EncodeOctets(bytes) + rest == rest;
    } else {
      var tail := EncodeOctets(bytes[1..]) + rest;
      OctetsOpen(bytes[1..], rest);
      OctetIsNoSeparator(bytes[0], tail);
      var text := EncodeOctet(bytes[0]) + tail;
      assert EncodeOctets(bytes) + rest == text;
      HexIsNoPercent(bytes[0] / 16);
      HexIsNoPercent(bytes[0] % 16);
      assert text[2..][1..] == tail && text[1..][1..] == text[2..];
      OpenCons(text[2..]);
      OpenCons(text[1..]);
      forall i | 0 <= i < |text| ensures !SeparatorAt(text, i) {
        if i > 0 {
          assert !SeparatorAt(text[1..], i - 1);
        }
      }
    }
  }

  lemma HexIsNoPercent(n: nat)
    requires n < 16
    ensures HexDigit(n) != '%'
  {
  }

  lemma {:induction false} EncodedIsOpen(text: string)
    requires '\\' !in text && '\0' !in text
    ensures Open(EncodePath(text))
  {
    if text != "" {
      EncodedIsOpen(text[1..]);
      var rest := EncodePath(text[1..]);
      if text[0] == '/' || Unreserved(text[0]) {
        assert EncodePath(text)[1..] == rest;
        OpenCons(EncodePath(text));
      } else {
        EncodedBytes(text[0]);
        OctetsOpen(Utf8.Encode(text[0]), rest);
      }
    }
  }

  lemma EncodedBytes(c: char)
    requires c != '\0' && c != '/' && c != '\\'
    ensures forall i :: 0 <= i < |Utf8.Encode(c)| ==>
              Utf8.Encode(c)[i] != 0 && Utf8.Encode(c)[i] != 0x2F && Utf8.Encode(c)[i] != 0x5C
  {
  }

  lemma {:induction false} EncodingStaysPrintable(text: string)
    ensures '\\' in EncodePath(text) ==> '\\' in text
    ensures '\0' in EncodePath(text) ==> '\0' in text
  {
    if text != "" {
      EncodingStaysPrintable(text[1..]);
      OctetsPrintable(Utf8.Encode(text[0]));
    }
  }

  lemma {:induction false} OctetsPrintable(bytes: seq<Utf8.byte>)
    ensures '\\' !in EncodeOctets(bytes) && '\0' !in EncodeOctets(bytes)
  {
    if bytes != [] {
      OctetsPrintable(bytes[1..]);
    }
  }

  lemma {:induction false} LayersUnblocked(text: string, n: nat)
    requires '\\' !in text && '\0' !in text && '%' !in text
    ensures !Blocked(EncodeTimes(text, n))
    ensures '\\' !in EncodeTimes(text, n) && '\0' !in EncodeTimes(text, n)
  {
    if n > 0 {
      LayersUnblocked(text, n - 1);
      EncodedIsOpen(EncodeTimes(text, n - 1));
      EncodingStaysPrintable(EncodeTimes(text, n - 1));
    }
  }

  lemma PercentNeedsEncoding(text: string)
    requires '%' in text
    ensures !NeedsNoEncoding(text)
  {
    var i :| 0 <= i < |text| && text[i] == '%';
    assert !Unreserved(text[i]);
  }

  /** One layer leaves something to encode, and another text than it was given. */
  lemma LayerDiffers(text: string)
    requires !NeedsNoEncoding(text)
    ensures !NeedsNoEncoding(EncodePath(text)) && EncodePath(text) != text
  {
    EncodedHasPercent(text);
    PercentNeedsEncoding(EncodePath(text));
    DecodeUndoesEncode(text);
    DecodeShrinks(EncodePath(text));
  }

  lemma {:induction false} LayersDiffer(text: string, n: nat)
    requires !NeedsNoEncoding(text)
    ensures !NeedsNoEncoding(EncodeTimes(text, n))
    ensures n > 0 ==> EncodeTimes(text, n) != EncodeTimes(text, n - 1)
  {
    if n > 0 {
      LayersDiffer(text, n - 1);
      LayerDiffers(EncodeTimes(text, n - 1));
    }
  }

  lemma OneTurn(inner: string, depth: nat)
    requires depth < 8 && !Blocked(EncodePath(inner)) && EncodePath(inner) != inner
    ensures DecodeLoop(EncodePath(inner), depth) == if depth == 7 then None else DecodeLoop(inner, depth + 1)
  {
    DecodeUndoesEncode(inner);
  }

  lemma NothingToPeel(text: string, depth: nat)
    requires depth < 8 && '%' !in text && !Blocked(text)
    ensures DecodeLoop(text, depth) == Some(text)
  {
    DecodeShrinks(text);
  }

  lemma PeelsOne(text: string, n: nat, depth: nat)
    requires 0 < n && depth < 8 && '\\' !in text && '\0' !in text && '%' !in text && !NeedsNoEncoding(text)
    ensures DecodeLoop(EncodeTimes(text, n), depth) ==
            if depth == 7 then None else DecodeLoop(EncodeTimes(text, n - 1), depth + 1)
  {
    LayersUnblocked(text, n);
    LayersDiffer(text, n);
    OneTurn(EncodeTimes(text, n - 1), depth);
  }

  /** The loop peels one layer a turn and has seven turns to do it. */
  lemma {:induction false} LoopPeels(text: string, n: nat, depth: nat)
    requires depth < 8 && '\\' !in text && '\0' !in text && '%' !in text && !NeedsNoEncoding(text)
    ensures DecodeLoop(EncodeTimes(text, n), depth) == if depth + n <= 7 then Some(text) else None
    decreases n
  {
    if n == 0 {
      LayersUnblocked(text, 0);
      NothingToPeel(text, depth);
    } else {
      PeelsOne(text, n, depth);
      if depth < 7 {
        LoopPeels(text, n - 1, depth + 1);
      }
    }
  }

  lemma {:induction false} UnneededLayers(text: string, n: nat)
    requires NeedsNoEncoding(text)
    ensures EncodeTimes(text, n) == text
  {
    if n > 0 {
      UnneededLayers(text, n - 1);
      PlainEncodesToItself(text);
    }
  }

  lemma CleanPathDecodes(relative: string)
    requires CleanName(relative)
    ensures
      var path := WHISPERING_PREFIX + relative;
      '\\' !in path && '\0' !in path && '%' !in path && Strip(path) == Some(relative)
  {
    var path := WHISPERING_PREFIX + relative;
    assert path[|WHISPERING_PREFIX|..] == relative;
    assert path[..|WHISPERING_PREFIX|] == WHISPERING_PREFIX;
  }

  /** Round trip with its exact limit: a clean name below the prefix, percent-encoded any number of
      times over, comes back as itself if and only if it was encoded at most seven times or had nothing
      to encode. */
  lemma EncodedNamesComeBack(relative: string, n: nat)
    requires CleanName(relative)
    ensures
      var path := WHISPERING_PREFIX + relative;
      RelativePath(EncodeTimes(path, n)) == Some(relative) <==> (n <= 7 || NeedsNoEncoding(path))
  {
    var path := WHISPERING_PREFIX + relative;
    CleanPathDecodes(relative);
    if NeedsNoEncoding(path) {
      UnneededLayers(path, n);
      LayersUnblocked(path, 0);
      DecodeShrinks(path);
    } else {
      LoopPeels(path, n, 0);
    }
  }

  /** The prefix needs no encoding of its own. */
  lemma OneLayerIsPerSegment(relative: string)
    ensures EncodePath(WHISPERING_PREFIX + relative) == WHISPERING_PREFIX + EncodePath(relative)
  {
    EncodeConcat(WHISPERING_PREFIX, relative);
    PrefixIsPlain();
    PlainEncodesToItself(WHISPERING_PREFIX);
  }

  function EncodeEach(segments: seq<string>): (encoded: seq<string>)
    ensures |encoded| == |segments|
  {
    if segments == [] then [] else [EncodeComponent(segments[0])] + EncodeEach(segments[1..])
  }

  /** Encoding a path is encoding its segments one by one. */
  lemma {:induction false} EncodesEachSegment(segments: seq<string>)
    requires forall i :: 0 <= i < |segments| ==> '/' !in segments[i]
    ensures EncodePath(Join(segments)) == Join(EncodeEach(segments))
  {
    if segments != [] {
      EncodesSegment(segments[0]);
      var rest := segments[1..];
      if rest != [] {
        EncodesEachSegment(rest);
        SlashBetween(segments[0], Join(rest));
        assert EncodeEach(segments)[1..] == EncodeEach(rest);
      }
    }
  }

  lemma SlashStays()
    ensures EncodePath("/") == "/"
  {
    PlainEncodesToItself("/");
  }

  lemma SlashBetween(a: string, b: string)
    ensures EncodePath(a + "/" + b) == EncodePath(a) + "/" + EncodePath(b)
  {
    SlashStays();
    EncodeConcat(a + "/", b);
    EncodeConcat(a, "/");
  }

  /** What a browser asks for: each segment of a clean name encoded and joined below the prefix comes back
      as the joined segments. */
  lemma SegmentsComeBack(segments: seq<string>)
    requires Normal(segments)
    requires forall i :: 0 <= i < |segments| ==> '%' !in segments[i] && '\\' !in segments[i] && '\0' !in segments[i]
    ensures RelativePath(WHISPERING_PREFIX + Join(EncodeEach(segments))) == Some(Join(segments))
  {
    assert forall i :: 0 <= i < |segments| ==> Plain(segments[i]);
    var relative := Join(segments);
    EncodesEachSegment(segments);
    OneLayerIsPerSegment(relative);
    JoinedIsClean(segments);
    EncodedNamesComeBack(relative, 1);
    assert EncodeTimes(WHISPERING_PREFIX + relative, 1) == EncodePath(EncodeTimes(WHISPERING_PREFIX + relative, 0));
  }

  lemma {:induction false} JoinLacks(segments: seq<string>, c: char)
    requires c != '/' && forall i :: 0 <= i < |segments| ==> c !in segments[i]
    ensures c !in Join(segments)
  {
    if |segments| > 1 {
      JoinLacks(segments[1..], c);
    }
  }

  lemma JoinedIsClean(segments: seq<string>)
    requires Normal(segments)
    requires forall i :: 0 <= i < |segments| ==> '%' !in segments[i] && '\\' !in segments[i] && '\0' !in segments[i]
    ensures CleanName(Join(segments))
  {
    assert forall i :: 0 <= i < |segments| ==> Plain(segments[i]);
    JoinLacks(segments, '%');
    JoinLacks(segments, '\\');
    JoinLacks(segments, '\0');
    JoinIsRelative(segments);
    if segments != [] {
      SplitJoin(segments);
    }
  }

  /** The limit met: a name with a space, encoded eight times over, is refused. */
  lemma EightLayersAreRefused()
    ensures RelativePath(EncodeTimes(WHISPERING_PREFIX + "a b", 8)) == None
  {
    var path := WHISPERING_PREFIX + "a b";
    assert path[|WHISPERING_PREFIX| + 1] == ' ';
    assert !NeedsNoEncoding(path);
    PlainIsClean();
    CleanPathDecodes("a b");
    LoopPeels(path, 8, 0);
  }

  lemma PlainIsClean()
    ensures CleanName("a b")
  {
    SplitOne("a b");
  }

  predicate LettersAndSlashes(text: string) {
    forall c <- text :: c == '/' || 'a' <= c <= 'z'
  }

  lemma PrefixIsPlain()
    ensures NeedsNoEncoding(WHISPERING_PREFIX)
  {
    assert WHISPERING_PREFIX == "/apps/" + "whispering/";
    assert LettersAndSlashes("/apps/");
    assert LettersAndSlashes("whispering/");
    forall i | 0 <= i < |WHISPERING_PREFIX|
      ensures WHISPERING_PREFIX[i] == '/' || Unreserved(WHISPERING_PREFIX[i])
    {
      assert WHISPERING_PREFIX[i] in WHISPERING_PREFIX;
    }
  }
}
