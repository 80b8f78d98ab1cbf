/**
 The parent-pipe line reader (apps/epicenter/src/sidecar-runtime.ts, `watchParentPipe`): the boot line
 is the first newline-terminated line of the decoded stream, however the stream is cut into chunks.
 */
module ParentPipe {
  import opened Strings
  import opened Utf8

  /** How the stream goes on after the chunks read so far. */
  datatype Ending = StillOpen | Eof | Failed(message: string)

  datatype Settlement = Resolved(line: string) | Rejected(message: string)

  const CLOSED_EARLY := "The parent pipe closed before a complete boot line."

  /** `new TextDecoder()` in streaming use: it holds an unfinished sequence between calls and drops one
      leading byte-order mark. */
  datatype TextDecoder = TextDecoder(utf8: Decoder, started: bool)

  const NEW_DECODER := TextDecoder(Start, false)

  function Decode(d: TextDecoder, bytes: seq<byte>): (TextDecoder, string) {
    var fed := Feed(d.utf8, bytes);
    (TextDecoder(fed.decoder, d.started || fed.text != ""), if d.started then fed.text else DropBom(fed.text))
  }

  function Concat(chunks: seq<seq<byte>>): seq<byte> {
    if chunks == [] then [] else Concat(chunks[..|chunks| - 1]) + chunks[|chunks| - 1]
  }

  /** The batch reading: decode all bytes at once. */
  function Whole(bytes: seq<byte>): string {
    DropBom(Feed(Start, bytes).text)
  }

  function DropCr(line: string): string {
    if line != "" && line[|line| - 1] == '\r' then line[..|line| - 1] else line
  }

  /** What the boot promise must become: the first complete line, or a rejection once none can come. */
  function Expected(bytes: seq<byte>, ending: Ending): seq<Settlement> {
    var text := Whole(bytes);
    if '\n' in text then [Resolved(DropCr(text[..IndexOf(text, '\n')]))]
    else match ending
      case StillOpen => []
      case Eof => [Rejected(CLOSED_EARLY)]
      case Failed(message) => [Rejected(message)]
  }

  /** The decoder after reading these bytes in any number of calls. */
  function After(bytes: seq<byte>): TextDecoder {
    var fed := Feed(Start, bytes);
    TextDecoder(fed.decoder, fed.text != "")
  }

  lemma DropBomContinues(text: string, more: string)
    ensures DropBom(text + more) == DropBom(text) + if text != "" then more else DropBom(more)
  {
    if text == "" {
      assert text + more == more;
    } else {
      assert (text + more)[0] == text[0] && (text + more)[1..] == text[1..] + more;
    }
  }

  lemma DecodeContinues(bytes: seq<byte>, chunk: seq<byte>)
    ensures Decode(After(bytes), chunk).0 == After(bytes + chunk)
    ensures Whole(bytes) + Decode(After(bytes), chunk).1 == Whole(bytes + chunk)
  {
    FeedConcat(Start, bytes, chunk);
    DropBomContinues(Feed(Start, bytes).text, Feed(Feed(Start, bytes).decoder, chunk).text);
  }

  lemma FirstLineStable(text: string, more: string)
    requires '\n' in text
    ensures IndexOf(text + more, '\n') == IndexOf(text, '\n')
    ensures 0 <= IndexOf(text, '\n') < |text|
    ensures (text + more)[..IndexOf(text, '\n')] == text[..IndexOf(text, '\n')]
  {
    var i := IndexOf(text, '\n');
    assert text + more == text[..i] + ['\n'] + (text[i + 1..] + more);
    IndexAfter(text[..i], '\n', text[i + 1..] + more);
  }

  lemma WholeGrows(bytes: seq<byte>, more: seq<byte>)
    ensures Whole(bytes) <= Whole(bytes + more)
  {
    DecodeContinues(bytes, more);
  }

  lemma ExpectedLine(bytes: seq<byte>, ending: Ending)
    requires '\n' in Whole(bytes)
    ensures Expected(bytes, ending) == [Resolved(DropCr(Whole(bytes)[..IndexOf(Whole(bytes), '\n')]))]
  {
  }

  lemma ExpectedStable(bytes: seq<byte>, more: seq<byte>, ending: Ending, later: Ending)
    requires '\n' in Whole(bytes)
    ensures Expected(bytes + more, later) == Expected(bytes, ending) && '\n' in Whole(bytes + more)
  {
    WholeGrows(bytes, more);
    var text := Whole(bytes);
    var longer := Whole(bytes + more);
    assert longer == text + longer[|text|..];
    FirstLineStable(text, longer[|text|..]);
    assert '\n' in longer by {
      assert longer[IndexOf(text, '\n')] == '\n';
    }
  }

  lemma ConcatOne(chunks: seq<seq<byte>>, i: nat)
    requires i < |chunks|
    ensures Concat(chunks[..i + 1]) == Concat(chunks[..i]) + chunks[i]
  {
    assert chunks[..i + 1][..i] == chunks[..i];
  }

  lemma Beginning()
    ensures After([]) == NEW_DECODER && Whole([]) == "" && Concat([]) == []
  {
  }

  /** Where the reader stands after these bytes: settled by their first line, or still collecting them. */
  predicate Reading(bytes: seq<byte>, boot: seq<Settlement>, settled: bool, decoder: TextDecoder, buffer: string) {
    if settled then '\n' in Whole(bytes) && boot == Expected(bytes, StillOpen)
    else '\n' !in Whole(bytes) && boot == [] && decoder == After(bytes) && buffer == Whole(bytes)
  }

  lemma SettledStays(bytes: seq<byte>, chunk: seq<byte>, boot: seq<Settlement>, decoder: TextDecoder, buffer: string)
    requires Reading(bytes, boot, true, decoder, buffer)
    ensures Reading(bytes + chunk, boot, true, decoder, buffer)
  {
    ExpectedStable(bytes, chunk, StillOpen, StillOpen);
  }

  lemma ChunkReads(bytes: seq<byte>, chunk: seq<byte>, decoder: TextDecoder, buffer: string)
    requires Reading(bytes, [], false, decoder, buffer)
    ensures
      var (next, text) := Decode(decoder, chunk);
      var newline := IndexOf(buffer + text, '\n');
      if newline == -1 then Reading(bytes + chunk, [], false, next, buffer + text)
      else Reading(bytes + chunk, [Resolved(DropCr((buffer + text)[..newline]))], true, next, "")
  {
    DecodeContinues(bytes, chunk);
    if '\n' in Whole(bytes + chunk) {
      ExpectedLine(bytes + chunk, StillOpen);
    }
  }

  /** How the promise ends up when no more chunks come. */
  lemma EndReads(bytes: seq<byte>, boot: seq<Settlement>, settled: bool, decoder: TextDecoder, buffer: string,
                 ending: Ending)
    requires Reading(bytes, boot, settled, decoder, buffer)
    ensures Expected(bytes, ending) ==
            if settled then boot
            else match ending
              case StillOpen => []
              case Eof => [Rejected(CLOSED_EARLY)]
              case Failed(message) => [Rejected(message)]
    ensures |boot| == if settled then 1 else 0
  {
    if settled {
      ExpectedLine(bytes, StillOpen);
      ExpectedLine(bytes, ending);
    }
  }

  /** The read loop. For every stream and every way of cutting it, the boot promise is settled exactly
      as the batch reading says, at most once; and `closed` resolves when the stream is over. */
  method WatchParentPipe(chunks: seq<seq<byte>>, ending: Ending) returns (boot: seq<Settlement>, closed: bool)
    ensures boot == Expected(Concat(chunks), ending)
    ensures |boot| <= 1 && (ending != StillOpen ==> |boot| == 1)
    ensures closed <==> ending != StillOpen
  {
    boot, closed := [], false;
    var decoder := NEW_DECODER;
    var isBootSettled := false;
    var buffer := "";
    Beginning();
    for i := 0 to |chunks|
      invariant Reading(Concat(chunks[..i]), boot, isBootSettled, decoder, buffer)
    {
      ghost var read := Concat(chunks[..i]);
      ConcatOne(chunks, i);
      if isBootSettled {
        SettledStays(read, chunks[i], boot, decoder, buffer);
      } else {
        ChunkReads(read, chunks[i], decoder, buffer);
        var (next, text) := Decode(decoder, chunks[i]);
        decoder := next;
        buffer := buffer + text;
        var newline := IndexOf(buffer, '\n');
        if newline != -1 {
          isBootSettled := true;
          boot := boot + [Resolved(DropCr(buffer[..newline]))];
          buffer := "";
        }
      }
    }
    assert chunks[..|chunks|] == chunks;
    EndReads(Concat(chunks), boot, isBootSettled, decoder, buffer, ending);
    match ending
    case StillOpen =>
    case Eof =>
      closed := true;
      if !isBootSettled {
        boot := boot + [Rejected(CLOSED_EARLY)];
      }
    case Failed(message) =>
      closed := true;
      if !isBootSettled {
        boot := boot + [Rejected(message)];
      }
  }

  /** The promise resolves if and only if the byte 0x0A occurs in the stream, even in malformed UTF-8. */
  lemma ResolvesIffNewlineByte(bytes: seq<byte>, ending: Ending)
    ensures (Expected(bytes, ending) != [] && Expected(bytes, ending)[0].Resolved?) <==> 10 in bytes
  {
    FeedNewline(Start, bytes);
    var text := Feed(Start, bytes).text;
    if text != "" && text[0] == BOM {
      assert text == [BOM] + text[1..];
    }
  }

  lemma WrittenFeeds(line: string)
    ensures Feed(Start, EncodeAll(line) + [10]).text == line + "\n"
  {
    FeedEncodedAll(line);
    FeedConcat(Start, EncodeAll(line), [10]);
    FeedLast(Start, 10);
  }

  lemma WrittenText(line: string)
    ensures Whole(EncodeAll(line) + [10]) == DropBom(line) + "\n"
  {
    WrittenFeeds(line);
    DropBomContinues(line, "\n");
    assert DropBom("\n") == "\n";
  }

  /** A parent that writes one encoded line, then anything, is understood: the line arrives as written,
      save a leading byte-order mark and one trailing carriage return. */
  lemma WrittenLineArrives(line: string, rest: seq<byte>, ending: Ending)
    requires '\n' !in line
    ensures Expected(EncodeAll(line) + [10] + rest, ending) == [Resolved(DropCr(DropBom(line)))]
  {
    var bytes := EncodeAll(line) + [10];
    WrittenText(line);
    var text := DropBom(line) + "\n";
    IndexAfter(DropBom(line), '\n', "");
    assert text + "" == text;
    assert text[|DropBom(line)|] == '\n' && text[..|DropBom(line)|] == DropBom(line);
    ExpectedStable(bytes, rest, ending, ending);
  }

  function Repeated(c: char, n: nat): string {
    if n == 0 then "" else [c] + Repeated(c, n - 1)
  }

  lemma {:induction false} RepeatedEnds(c: char, n: nat)
    ensures |Repeated(c, n)| == n && forall i :: 0 <= i < n ==> Repeated(c, n)[i] == c
    ensures n > 0 ==> Repeated(c, n) == Repeated(c, n - 1) + [c]
  {
    if n > 0 {
      RepeatedEnds(c, n - 1);
      if n == 1 {
        assert Repeated(c, 1) == [c] + "" == "" + [c];
      } else {
        assert Repeated(c, n) == [c] + (Repeated(c, n - 2) + [c]) == Repeated(c, n - 1) + [c];
      }
    }
  }

  lemma OneCrGoes(line: string, n: nat)
    requires line != "" ==> line[|line| - 1] != '\r'
    ensures DropCr(line + Repeated('\r', n)) == line + Repeated('\r', if n > 0 then n - 1 else 0)
  {
    RepeatedEnds('\r', n);
    if n == 0 {
      assert line + "" == line;
    } else {
      assert line + Repeated('\r', n) == (line + Repeated('\r', n - 1)) + "\r";
    }
  }

  lemma OneBomGoes(n: nat, line: string)
    requires line != "" ==> line[0] != '\U{FEFF}'
    ensures DropBom(Repeated('\U{FEFF}', n) + line) == Repeated('\U{FEFF}', if n > 0 then n - 1 else 0) + line
  {
    if n == 0 {
      assert "" + line == line;
    } else {
      assert (Repeated('\U{FEFF}', n) + line)[1..] == Repeated('\U{FEFF}', n - 1) + line;
    }
  }

  /** A line between so many byte-order marks and carriage returns. */
  function Between(marks: nat, line: string, ends: nat): string {
    Repeated('\U{FEFF}', marks) + line + Repeated('\r', ends)
  }

  lemma BetweenNoFeeds(marks: nat, line: string, ends: nat)
    requires '\n' !in line
    ensures '\n' !in Between(marks, line, ends)
  {
    RepeatedEnds('\U{FEFF}', marks);
    RepeatedEnds('\r', ends);
  }

  lemma OneOfEachGoes(marks: nat, line: string, ends: nat)
    requires line != "" ==> line[0] != '\U{FEFF}' && line[|line| - 1] != '\r'
    ensures DropCr(DropBom(Between(marks, line, ends))) ==
            Between(if marks > 0 then marks - 1 else 0, line, if ends > 0 then ends - 1 else 0)
  {
    var fewer := if marks > 0 then marks - 1 else 0;
    RepeatedEnds('\r', ends);
    RepeatedEnds('\U{FEFF}', fewer);
    assert Between(marks, line, ends) == Repeated('\U{FEFF}', marks) + (line + Repeated('\r', ends));
    OneBomGoes(marks, line + Repeated('\r', ends));
    assert Between(fewer, line, ends) == Repeated('\U{FEFF}', fewer) + (line + Repeated('\r', ends));
    OneCrGoes(Repeated('\U{FEFF}', fewer) + line, ends);
  }

  /** Whatever follows it, a line written with any number of byte-order marks before it and of carriage returns
      before its line feed arrives with one fewer of each: a line without any is not touched, the two usual line
      ends make no difference, and second ones stay. */
  lemma LinesArrive(marks: nat, line: string, ends: nat, rest: seq<byte>, ending: Ending)
    requires '\n' !in line && (line != "" ==> line[0] != '\U{FEFF}' && line[|line| - 1] != '\r')
    ensures Expected(EncodeAll(Between(marks, line, ends)) + [10] + rest, ending) ==
            [Resolved(Between(if marks > 0 then marks - 1 else 0, line, if ends > 0 then ends - 1 else 0))]
  {
    BetweenNoFeeds(marks, line, ends);
    WrittenLineArrives(Between(marks, line, ends), rest, ending);
    OneOfEachGoes(marks, line, ends);
  }
}
