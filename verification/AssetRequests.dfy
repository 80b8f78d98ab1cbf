/**
 Exactly which request paths name a Whispering asset (apps/epicenter/src/static-assets.ts): the decode loop and
 the segment checks, described without either.
 */
module AssetRequests {
  import opened Prelude
  import opened Strings
  import opened PercentCoding
  import opened Paths
  import opened StaticPaths

  predicate StandsAt(text: string, piece: string, i: nat) {
    i + |piece| <= |text| && text[i..i + |piece|] == piece
  }

  predicate Contains(text: string, piece: string) {
    exists i :: 0 <= i <= |text| && StandsAt(text, piece, i)
  }

  /** What no layer of a request may hold: a backslash, a NUL, or an encoded NUL, slash or backslash. */
  predicate Refused(text: string) {
    || '\\' in text || '\0' in text || Contains(text, "%00")
    || Contains(text, "%2f") || Contains(text, "%2F") || Contains(text, "%5c") || Contains(text, "%5C")
  }

  lemma ContainsAt(text: string, i: nat, a: char, b: char)
    requires i + 2 < |text| && text[i] == '%' && text[i + 1] == a && text[i + 2] == b
    ensures Contains(text, ['%', a, b])
  {
    assert StandsAt(text, ['%', a, b], i);
  }

  lemma ContainedAt(text: string, a: char, b: char) returns (i: nat)
    requires Contains(text, ['%', a, b])
    ensures i + 2 < |text| && text[i] == '%' && text[i + 1] == a && text[i + 2] == b
  {
    i :| 0 <= i <= |text| && StandsAt(text, ['%', a, b], i);
    assert text[i] == text[i..i + 3][0] && text[i + 1] == text[i..i + 3][1] && text[i + 2] == text[i..i + 3][2];
  }

  lemma SeparatorIsRefused(text: string, i: nat)
    requires SeparatorAt(text, i)
    ensures Refused(text)
  {
    ContainsAt(text, i, text[i + 1], text[i + 2]);
    var a, b := Lower(text[i + 1]), Lower(text[i + 2]);
    assert [a, b][0] == a && [a, b][1] == b;
  }

  lemma RefusedPiece(text: string, a: char, b: char)
    requires Contains(text, ['%', a, b])
    requires [Lower(a), Lower(b)] == "00" || [Lower(a), Lower(b)] == "2f" || [Lower(a), Lower(b)] == "5c"
    ensures Blocked(text)
  {
    var i := ContainedAt(text, a, b);
    assert SeparatorAt(text, i);
  }

  lemma RefusedIffBlocked(text: string)
    ensures Refused(text) <==> Blocked(text)
  {
    if i :| 0 <= i < |text| && SeparatorAt(text, i) {
      SeparatorIsRefused(text, i);
    }
    if Contains(text, "%00") {
      RefusedPiece(text, '0', '0');
    }
    if Contains(text, "%2f") {
      RefusedPiece(text, '2', 'f');
    }
    if Contains(text, "%2F") {
      RefusedPiece(text, '2', 'F');
    }
    if Contains(text, "%5c") {
      RefusedPiece(text, '5', 'c');
    }
    if Contains(text, "%5C") {
      RefusedPiece(text, '5', 'C');
    }
  }

  /** Decoded `n` times, without ever showing anything refused, the text is `end`, which has no percent sign. */
  predicate PeelsTo(text: string, n: nat, end: string)
    decreases n
  {
    && !Refused(text)
    && if n == 0 then text == end && '%' !in end else Decode(text).Some? && PeelsTo(Decode(text).value, n - 1, end)
  }

  predicate PeelsWithin(text: string, bound: nat, end: string) {
    exists n :: 0 <= n <= bound && PeelsTo(text, n, end)
  }

  lemma {:induction false} PlainStays(text: string, n: nat, end: string)
    requires '%' !in text && PeelsTo(text, n, end)
    ensures end == text
  {
    DecodeShrinks(text);
    if n > 0 {
      PlainStays(text, n - 1, end);
    }
  }

  lemma {:induction false} LoopPeelsTo(text: string, depth: nat) returns (n: nat)
    requires depth < 8 && DecodeLoop(text, depth).Some?
    ensures n <= 7 - depth && PeelsTo(text, n, DecodeLoop(text, depth).value)
    decreases 8 - depth
  {
    RefusedIffBlocked(text);
    DecodeShrinks(text);
    if Decode(text).value == text {
      n := 0;
    } else {
      n := LoopPeelsTo(Decode(text).value, depth + 1);
      n := n + 1;
    }
  }

  lemma {:induction false} PeeledByLoop(text: string, depth: nat, n: nat, end: string)
    requires depth < 8 && n <= 7 - depth && PeelsTo(text, n, end)
    ensures DecodeLoop(text, depth) == Some(end)
    decreases n
  {
    RefusedIffBlocked(text);
    DecodeShrinks(text);
    if '%' !in text {
      PlainStays(text, n, end);
    } else {
      PeeledByLoop(Decode(text).value, depth + 1, n - 1, end);
    }
  }

  // ---------------------------------------------------------------- segments

  /** Named segments below a directory, none of them a dot segment, with or without a slash at the end. */
  ghost predicate Descends(relative: string) {
    exists segments: seq<string> :: SpelledBy(relative, segments)
  }

  predicate SpelledBy(relative: string, segments: seq<string>) {
    Normal(segments) && (relative == Join(segments) || (segments != [] && relative == Join(segments) + "/"))
  }

  lemma {:induction false} JoinSplit(text: string)
    ensures Join(Split(text)) == text
  {
    if text != "" {
      JoinSplit(text[1..]);
      var rest := Split(text[1..]);
      if text[0] == '/' {
        assert Split(text)[1..] == rest;
        assert Join(Split(text)) == "" + "/" + text[1..];
      } else {
        assert Split(text)[1..] == rest[1..];
        assert Join(Split(text)) == [text[0]] + Join(rest);
      }
    }
  }

  lemma OkDescends(relative: string)
    requires SegmentsOk(relative)
    ensures Descends(relative)
  {
    var pieces, segments := Split(relative), AssetSegments(relative);
    AssetSegmentsPlain(relative);
    JoinSplit(relative);
    if pieces != segments {
      assert pieces == segments + [""];
      if segments != [] {
        JoinConcat(segments, [""]);
        assert relative == Join(segments) + "/" + "";
      }
    }
    assert SpelledBy(relative, segments);
  }

  lemma SpelledIsOk(relative: string, segments: seq<string>)
    requires SpelledBy(relative, segments)
    ensures SegmentsOk(relative)
  {
    assert forall i :: 0 <= i < |segments| ==> Plain(segments[i]);
    JoinIsRelative(segments);
    if segments != [] {
      SplitJoin(segments);
      if relative != Join(segments) {
        assert relative == Join(segments) + "/" + "";
        SplitConcat(Join(segments), "");
        assert segments[0] != "" && relative[0] == segments[0][0];
      }
    }
  }

  /** A request names the asset `relative` exactly when at most seven decodings of it, none of them showing a
      backslash, a NUL or an encoded separator, lead to the prefix followed by `relative`, without percent signs,
      and `relative` only descends. */
  lemma AcceptedIff(pathname: string, relative: string)
    ensures RelativePath(pathname) == Some(relative) <==>
            PeelsWithin(pathname, 7, "/apps/whispering/" + relative) && Descends(relative)
  {
    var path := "/apps/whispering/" + relative;
    assert path[|WHISPERING_PREFIX|..] == relative;
    if RelativePath(pathname) == Some(relative) {
      var n := LoopPeelsTo(pathname, 0);
      assert DecodeLoop(pathname, 0).value == path;
      OkDescends(relative);
    }
    if PeelsWithin(pathname, 7, path) && Descends(relative) {
      var n :| 0 <= n <= 7 && PeelsTo(pathname, n, path);
      PeeledByLoop(pathname, 0, n, path);
      var segments :| SpelledBy(relative, segments);
      SpelledIsOk(relative, segments);
    }
  }
}
