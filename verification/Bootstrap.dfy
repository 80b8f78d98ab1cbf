/**
 Gating the Whispering bootstrap (apps/epicenter/scripts/prepare-whispering-index.ts): two guarded
 string replacements, seen as two insertions at the only places the markers occur.
 */
module Bootstrap {
  import opened Prelude

  const BOOT_START := "Promise.all(["
  const AFTER := ".then(([kit, app]) => {"
  const BOOT_END := "])" + AFTER
  const READY := "window.__EPICENTER_WHISPERING_AUTH_READY__"
  const GATE := READY + ".then(() => "
  const GATED_START := GATE + BOOT_START
  const GATED_END := "]))" + AFTER

  datatype GateError = Expected(marker: string, found: nat)

  predicate Occurs(text: string, marker: string, at: int) {
    0 <= at && at + |marker| <= |text| && text[at..at + |marker|] == marker
  }

  /** The first occurrence from `from` on, or -1. */
  function IndexFrom(text: string, marker: string, from: nat): (at: int)
    ensures at == -1 || (from <= at && Occurs(text, marker, at))
    ensures forall i :: from <= i && (at == -1 || i < at) ==> !Occurs(text, marker, i)
    decreases |text| - from
  {
    if from > |text| then -1
    else if Occurs(text, marker, from) then from
    else IndexFrom(text, marker, from + 1)
  }

  /** `text.split(marker).length - 1`: occurrences left to right, none overlapping the one before. */
  function SplitCount(text: string, marker: string, from: nat := 0): nat
    requires marker != ""
    decreases |text| - from
  {
    var at := IndexFrom(text, marker, from);
    if at == -1 then 0 else 1 + SplitCount(text, marker, at + |marker|)
  }

  /** `text.replace(marker, put)`: the first occurrence only. */
  function ReplaceFirst(text: string, marker: string, put: string): string {
    var at := IndexFrom(text, marker, 0);
    if at == -1 then text else text[..at] + put + text[at + |marker|..]
  }

  /** `gateWhisperingBootstrap`. */
  function GateWhisperingBootstrap(html: string): Result<string, GateError> {
    var starts, ends := SplitCount(html, BOOT_START), SplitCount(html, BOOT_END);
    if starts != 1 then Err(Expected(BOOT_START, starts))
    else if ends != 1 then Err(Expected(BOOT_END, ends))
    else Ok(ReplaceFirst(ReplaceFirst(html, BOOT_START, GATED_START), BOOT_END, GATED_END))
  }

  // ---------------------------------------------------------------- single occurrences

  /** The marker occurs at `at` and nowhere else. */
  ghost predicate OnlyAt(text: string, marker: string, at: int) {
    Occurs(text, marker, at) && forall i :: Occurs(text, marker, i) ==> i == at
  }

  /** No proper end of the marker is also a beginning of it: its occurrences never overlap. */
  predicate Borderless(marker: string) {
    forall shift :: 0 < shift < |marker| ==> marker[shift..] != marker[..|marker| - shift]
  }

  lemma OverlapIsABorder(text: string, marker: string, i: int, j: int)
    requires Occurs(text, marker, i) && Occurs(text, marker, j) && i < j
    ensures j < i + |marker| ==> marker[j - i..] == marker[..|marker| - (j - i)]
  {
    if j < i + |marker| {
      assert marker[j - i..] == text[i..i + |marker|][j - i..] == text[j..i + |marker|];
      assert marker[..|marker| - (j - i)] == text[j..j + |marker|][..|marker| - (j - i)] == text[j..i + |marker|];
    }
  }

  lemma NoSelfOverlap(text: string, marker: string, i: int, j: int)
    requires Borderless(marker) && Occurs(text, marker, i) && Occurs(text, marker, j) && i < j
    ensures i + |marker| <= j
  {
    OverlapIsABorder(text, marker, i, j);
  }

  /** Counting the pieces of a split counts occurrences, when they cannot overlap. */
  lemma CountsOne(text: string, marker: string)
    requires marker != "" && Borderless(marker)
    ensures SplitCount(text, marker) == 1 <==> exists at :: OnlyAt(text, marker, at)
    ensures SplitCount(text, marker) == 1 ==> OnlyAt(text, marker, IndexFrom(text, marker, 0))
    ensures SplitCount(text, marker) == 0 <==> forall i :: !Occurs(text, marker, i)
  {
    var at := IndexFrom(text, marker, 0);
    if at != -1 {
      var next := IndexFrom(text, marker, at + |marker|);
      forall i | Occurs(text, marker, i) ensures i == at || i >= at + |marker| {
        if i > at {
          NoSelfOverlap(text, marker, at, i);
        }
      }
      if next == -1 {
        assert OnlyAt(text, marker, at);
      }
    }
  }

  lemma StartIsBorderless()
    ensures Borderless(BOOT_START)
  {
    assert forall i :: 0 < i < |BOOT_START| ==> BOOT_START[i] != 'P';
    forall shift | 0 < shift < |BOOT_START|
      ensures BOOT_START[shift..] != BOOT_START[..|BOOT_START| - shift]
    {
      assert BOOT_START[shift..][0] != BOOT_START[..|BOOT_START| - shift][0];
    }
  }

  lemma EndIsBorderless()
    ensures Borderless(BOOT_END)
    ensures forall i :: 0 < i < |BOOT_END| && BOOT_END[i] == ']' ==> i == 18
    ensures forall i :: 0 <= i < |BOOT_END| && BOOT_END[i] == ')' ==> i == 1 || i == 19
  {
    assert forall i :: 0 < i < |BOOT_END| && BOOT_END[i] == ']' ==> i == 18;
    forall shift | 0 < shift < |BOOT_END|
      ensures BOOT_END[shift..] != BOOT_END[..|BOOT_END| - shift]
    {
      if shift == 18 {
        assert BOOT_END[18..][2] == ' ' && BOOT_END[..7][2] == '.';
      } else {
        assert BOOT_END[shift..][0] != BOOT_END[..|BOOT_END| - shift][0];
      }
    }
  }

  // ---------------------------------------------------------------- insertions

  function Insert(text: string, at: nat, piece: string): string
    requires at <= |text|
  {
    text[..at] + piece + text[at..]
  }

  /** Where an old occurrence is after the insertion. */
  function Shifted(i: int, at: nat, piece: string): int {
    if i < at then i else i + |piece|
  }

  /** No occurrence of the marker can start before the piece and reach into it, or start inside it: the
      marker lacks the piece's first character, and its own first two are nowhere in the piece. */
  predicate Foreign(piece: string, marker: string) {
    && |piece| > 0 && |marker| > 1 && piece[0] !in marker
    && forall k :: 0 <= k < |piece| && piece[k] == marker[0] ==> k + 1 < |piece| && piece[k + 1] != marker[1]
  }

  /** Where an occurrence can be after an insertion: before it, behind it, across its start, or starting
      inside it. */
  lemma InsertionCases(text: string, at: nat, piece: string, marker: string, i: int)
    requires at <= |text| && piece != "" && |marker| > 1 && Occurs(Insert(text, at, piece), marker, i)
    ensures
      || (i + |marker| <= at && Occurs(text, marker, i))
      || (at + |piece| <= i && Occurs(text, marker, i - |piece|))
      || (i <= at < i + |marker| && marker[at - i] == piece[0]
          && (at - i + 1 < |marker| && |piece| == 1 && at < |text| ==> marker[at - i + 1] == text[at]))
      || (at < i < at + |piece| && marker[0] == piece[i - at]
          && (i + 1 < at + |piece| ==> marker[1] == piece[i + 1 - at]))
  {
    var after := Insert(text, at, piece);
    assert marker == after[i..i + |marker|];
    if i + |marker| <= at {
      assert after[i..i + |marker|] == text[i..i + |marker|];
    } else if at + |piece| <= i {
      assert forall k :: i <= k < i + |marker| ==> after[k] == text[k - |piece|];
      assert after[i..i + |marker|] == text[i - |piece|..i - |piece| + |marker|];
    }
  }

  lemma OccurrencesMove(text: string, at: nat, piece: string, marker: string, i: int)
    requires at <= |text| && Occurs(text, marker, i)
    ensures i + |marker| <= at ==> Occurs(Insert(text, at, piece), marker, i)
    ensures at <= i ==> Occurs(Insert(text, at, piece), marker, i + |piece|)
  {
    var after := Insert(text, at, piece);
    if i + |marker| <= at {
      assert after[i..i + |marker|] == text[i..i + |marker|];
    }
    if at <= i {
      assert after[i + |piece|..i + |piece| + |marker|] == text[i..i + |marker|];
    }
  }

  /** A foreign piece makes no occurrence: an only occurrence it does not land inside of stays the only one. */
  lemma OnlyStaysOnly(text: string, at: nat, piece: string, marker: string, only: nat)
    requires at <= |text| && Foreign(piece, marker)
    requires OnlyAt(text, marker, only) && (only + |marker| <= at || at <= only)
    ensures OnlyAt(Insert(text, at, piece), marker, Shifted(only, at, piece))
  {
    OccurrencesMove(text, at, piece, marker, only);
    forall i | Occurs(Insert(text, at, piece), marker, i) ensures i == Shifted(only, at, piece) {
      InsertionCases(text, at, piece, marker, i);
    }
  }

  predicate Lacks(text: string, c: char) {
    forall ch <- text :: ch != c
  }

  lemma ReadyLetters()
    ensures Lacks(READY, ']')
    ensures forall k :: 0 <= k < |READY| && READY[k] == 'P' ==> k + 1 < |READY| && READY[k + 1] != 'r'
  {
  }

  lemma GateLetters()
    ensures Lacks(GATE, ']')
    ensures forall k :: 0 <= k < |GATE| && GATE[k] == 'P' ==> k + 1 < |GATE| && GATE[k + 1] != 'r'
  {
    var hook := ".then(() => ";
    ReadyLetters();
    assert GATE == READY + hook && Lacks(hook, ']') && Lacks(hook, 'P');
    CarriesOver(READY, hook);
  }

  lemma CarriesOver(ready: string, hook: string)
    requires Lacks(ready, ']') && Lacks(hook, ']') && Lacks(hook, 'P')
    requires forall k :: 0 <= k < |ready| && ready[k] == 'P' ==> k + 1 < |ready| && ready[k + 1] != 'r'
    ensures
      var gate := ready + hook;
      Lacks(gate, ']')
      && forall k :: 0 <= k < |gate| && gate[k] == 'P' ==> k + 1 < |gate| && gate[k + 1] != 'r'
  {
    var gate := ready + hook;
    assert forall j :: 0 <= j < |hook| ==> hook[j] in hook;
    forall k | 0 <= k < |gate|
      ensures gate[k] == 'P' ==> k + 1 < |gate| && gate[k + 1] != 'r'
    {
      assert gate[k] == if k < |ready| then ready[k] else hook[k - |ready|];
    }
  }

  lemma StartLetters()
    ensures BOOT_START[..2] == "Pr" && Lacks(BOOT_START, 'w') && Lacks(BOOT_START, ']') && Lacks(BOOT_START, ')')
  {
  }

  lemma EndLetters()
    ensures BOOT_END[..2] == "])" && Lacks(BOOT_END, 'w') && Lacks(BOOT_END, 'P')
  {
    assert Lacks(AFTER, 'w') && Lacks(AFTER, 'P');
    forall c | c in BOOT_END ensures c != 'w' && c != 'P' {
      assert c in AFTER || c == ']' || c == ')';
    }
  }

  /** The gate is foreign to both markers, and a parenthesis to the opening one. */
  lemma InsertionsAreForeign()
    ensures Foreign(GATE, BOOT_START) && Foreign(GATE, BOOT_END) && Foreign(")", BOOT_START)
  {
    GateLetters();
    StartLetters();
    EndLetters();
    assert GATE[0] == READY[0] == 'w';
    assert BOOT_START[0] == BOOT_START[..2][0] && BOOT_START[1] == BOOT_START[..2][1];
    assert BOOT_END[0] == BOOT_END[..2][0];
    assert forall k :: 0 <= k < |GATE| ==> GATE[k] in GATE;
  }

  lemma GatedEndIsEndWithParenthesis()
    ensures GATED_END == Insert(BOOT_END, 1, ")")
  {
    assert BOOT_END[..1] == "]" && BOOT_END[1..] == ")" + AFTER;
  }

  /** The two markers never overlap: the first character of either is not in the other. */
  lemma MarkersApart(html: string, start: int, end: int)
    requires Occurs(html, BOOT_START, start) && Occurs(html, BOOT_END, end)
    ensures start + |BOOT_START| <= end || end + |BOOT_END| <= start
  {
    SharedPlaces(html, BOOT_START, start, BOOT_END, end);
    SharedPlaces(html, BOOT_END, end, BOOT_START, start);
    MarkersShareNothing();
  }

  lemma SharedPlaces(text: string, a: string, i: int, b: string, j: int)
    requires Occurs(text, a, i) && Occurs(text, b, j) && b != ""
    ensures i <= j < i + |a| ==> a[j - i] == b[0]
  {
    assert text[j..j + |b|][0] == text[j];
    assert i <= j < i + |a| ==> text[i..i + |a|][j - i] == text[j];
  }

  lemma MarkersShareNothing()
    ensures forall k :: 0 <= k < |BOOT_START| ==> BOOT_START[k] != BOOT_END[0]
    ensures forall k :: 0 <= k < |BOOT_END| ==> BOOT_END[k] != BOOT_START[0]
  {
    StartLetters();
    EndLetters();
    assert BOOT_START[0] == BOOT_START[..2][0] && BOOT_END[0] == BOOT_END[..2][0];
    assert forall k :: 0 <= k < |BOOT_END| ==> BOOT_END[k] in BOOT_END;
    assert forall k :: 0 <= k < |BOOT_START| ==> BOOT_START[k] in BOOT_START;
  }

  // ---------------------------------------------------------------- what the rewrite does

  /** The page with the gate inserted in front of the opening marker at `start`, and one closing
      parenthesis inside the marker at `end`. */
  function Gated(html: string, start: nat, end: nat): string
    requires start <= |html| && end + 1 <= |html|
  {
    Insert(Insert(html, start, GATE), Shifted(end, start, GATE) + 1, ")")
  }

  lemma ReplaceInserts(text: string, marker: string, put: string, at: nat, within: nat, piece: string)
    requires OnlyAt(text, marker, at) && within <= |marker| && put == Insert(marker, within, piece)
    ensures ReplaceFirst(text, marker, put) == Insert(text, at + within, piece)
  {
    assert IndexFrom(text, marker, 0) == at;
    assert text == text[..at] + marker + text[at + |marker|..];
    assert text[..at + within] == text[..at] + marker[..within];
    assert text[at + within..] == marker[within..] + text[at + |marker|..];
  }

  /** A page is accepted exactly when each marker occurs once, and then the result is the page with two
      insertions and nothing else changed. */
  lemma AcceptsExactlySingleMarkers(html: string)
    ensures GateWhisperingBootstrap(html).Ok? <==>
            (exists start :: OnlyAt(html, BOOT_START, start)) && (exists end :: OnlyAt(html, BOOT_END, end))
  {
    StartIsBorderless();
    EndIsBorderless();
    CountsOne(html, BOOT_START);
    CountsOne(html, BOOT_END);
  }

  lemma ReplacingInserts(html: string, opening: string, closing: string, gate: string, start: nat, end: nat)
    requires OnlyAt(html, opening, start) && OnlyAt(html, closing, end)
    requires start + |opening| <= end || end + |closing| <= start
    requires Foreign(gate, closing)
    ensures ReplaceFirst(ReplaceFirst(html, opening, gate + opening), closing, Insert(closing, 1, ")")) ==
            Insert(Insert(html, start, gate), Shifted(end, start, gate) + 1, ")")
    ensures OnlyAt(Insert(html, start, gate), closing, Shifted(end, start, gate))
  {
    InsertInFront(opening, gate);
    ReplaceInserts(html, opening, gate + opening, start, 0, gate);
    var once, at := Insert(html, start, gate), Shifted(end, start, gate);
    OnlyStaysOnly(html, start, gate, closing, end);
    ReplaceInserts(once, closing, Insert(closing, 1, ")"), at, 1, ")");
  }

  lemma GateReplaces(html: string, start: nat, end: nat)
    requires OnlyAt(html, BOOT_START, start) && OnlyAt(html, BOOT_END, end)
    ensures GateWhisperingBootstrap(html) ==
            Ok(ReplaceFirst(ReplaceFirst(html, BOOT_START, GATE + BOOT_START), BOOT_END, Insert(BOOT_END, 1, ")")))
  {
    AcceptsExactlySingleMarkers(html);
    GatedEndIsEndWithParenthesis();
  }

  lemma GatingInserts(html: string, start: nat, end: nat)
    requires OnlyAt(html, BOOT_START, start) && OnlyAt(html, BOOT_END, end)
    ensures GateWhisperingBootstrap(html) == Ok(Gated(html, start, end))
    ensures OnlyAt(Insert(html, start, GATE), BOOT_END, Shifted(end, start, GATE))
  {
    GateReplaces(html, start, end);
    MarkersApart(html, start, end);
    InsertionsAreForeign();
    ReplacingInserts(html, BOOT_START, BOOT_END, GATE, start, end);
  }

  function Remove(text: string, at: nat, length: nat): string
    requires at + length <= |text|
  {
    text[..at] + text[at + length..]
  }

  /** Taking the two insertions out again gives the page back. */
  lemma RemovingTheInsertionsRecovers(html: string, start: nat, end: nat)
    requires OnlyAt(html, BOOT_START, start) && OnlyAt(html, BOOT_END, end)
    ensures
      var out := GateWhisperingBootstrap(html);
      && out.Ok? && |out.value| == |html| + |GATE| + 1
      && Remove(Remove(out.value, Shifted(end, start, GATE) + 1, 1), start, |GATE|) == html
  {
    GatingInserts(html, start, end);
    RemoveUndoesInsert(html, start, GATE);
    RemoveUndoesInsert(Insert(html, start, GATE), Shifted(end, start, GATE) + 1, ")");
  }

  lemma RemoveUndoesInsert(text: string, at: nat, piece: string)
    requires at <= |text|
    ensures |Insert(text, at, piece)| == |text| + |piece|
    ensures Remove(Insert(text, at, piece), at, |piece|) == text
  {
    assert Insert(text, at, piece)[..at] == text[..at] && Insert(text, at, piece)[at + |piece|..] == text[at..];
    assert text == text[..at] + text[at..];
  }

  // ---------------------------------------------------------------- never twice

  /** A marker a parenthesis can split: it starts with another character and a parenthesis, and has no
      two parentheses in a row, nor one at its end. */
  predicate Splittable(marker: string) {
    && |marker| > 1 && marker[0] != ')' && marker[1] == ')' && marker[|marker| - 1] != ')'
    && forall k :: 0 <= k < |marker| - 1 ==> marker[k] != ')' || marker[k + 1] != ')'
  }

  lemma EndIsSplittable()
    ensures Splittable(BOOT_END)
  {
    EndIsBorderless();
    assert BOOT_END[2] == '.' && BOOT_END[20] == ' ' && BOOT_END[24] == '{';
  }

  /** A parenthesis put right inside its only occurrence leaves no occurrence there, and makes none. */
  lemma SplitLeavesNone(text: string, marker: string, only: nat, i: int)
    requires OnlyAt(text, marker, only) && Splittable(marker)
    ensures !Occurs(Insert(text, only + 1, ")"), marker, i)
  {
    assert text[only + 1] == text[only..only + |marker|][1] == marker[1];
    if Occurs(Insert(text, only + 1, ")"), marker, i) {
      InsertionCases(text, only + 1, ")", marker, i);
    }
  }

  /** The rewrite can run only once: on its own output it always throws, for want of a closing marker. */
  lemma SecondRunThrows(html: string)
    requires GateWhisperingBootstrap(html).Ok?
    ensures GateWhisperingBootstrap(GateWhisperingBootstrap(html).value) == Err(Expected(BOOT_END, 0))
  {
    AcceptsExactlySingleMarkers(html);
    var start :| OnlyAt(html, BOOT_START, start);
    var end :| OnlyAt(html, BOOT_END, end);
    GatingInserts(html, start, end);
    GatedHasNoEnd(html, start, end);
    GatedHasOneStart(html, start, end);
    StartIsBorderless();
    EndIsBorderless();
    CountsOne(Gated(html, start, end), BOOT_START);
    CountsOne(Gated(html, start, end), BOOT_END);
  }

  lemma GatedHasNoEnd(html: string, start: nat, end: nat)
    requires OnlyAt(html, BOOT_START, start) && OnlyAt(html, BOOT_END, end)
    ensures forall i :: !Occurs(Gated(html, start, end), BOOT_END, i)
  {
    GatingInserts(html, start, end);
    EndIsSplittable();
    forall i ensures !Occurs(Gated(html, start, end), BOOT_END, i) {
      SplitLeavesNone(Insert(html, start, GATE), BOOT_END, Shifted(end, start, GATE), i);
    }
  }

  lemma GatedHasOneStart(html: string, start: nat, end: nat)
    requires OnlyAt(html, BOOT_START, start) && OnlyAt(html, BOOT_END, end)
    ensures exists at :: OnlyAt(Gated(html, start, end), BOOT_START, at)
  {
    OnlyStart(html, start);
    MarkersApart(html, start, end);
    InsertionsAreForeign();
    var at := Shifted(end, start, GATE) + 1;
    OnlyStaysOnly(Insert(html, start, GATE), at, ")", BOOT_START, start + |GATE|);
    assert OnlyAt(Gated(html, start, end), BOOT_START, Shifted(start + |GATE|, at, ")"));
  }

  lemma OnlyStart(html: string, start: nat)
    requires OnlyAt(html, BOOT_START, start)
    ensures OnlyAt(Insert(html, start, GATE), BOOT_START, start + |GATE|)
  {
    InsertionsAreForeign();
    OnlyStaysOnly(html, start, GATE, BOOT_START, start);
  }

  // ---------------------------------------------------------------- not undone from the text alone

  lemma EndPlaces()
    ensures forall k :: 0 <= k < |BOOT_END| && BOOT_END[k] == ']' ==>
              k == 0 || (k + 2 < |BOOT_END| && BOOT_END[k + 2] != '.')
    ensures forall k :: 0 <= k < |GATED_END| && GATED_END[k] == ']' ==>
              k + 2 < |GATED_END| && GATED_END[k + 2] != '.'
  {
    EndIsBorderless();
    GatedEndIsEndWithParenthesis();
    assert BOOT_END[20] == ' ';
    forall k | 0 <= k < |GATED_END| && GATED_END[k] == ']'
      ensures k + 2 < |GATED_END| && GATED_END[k + 2] != '.'
    {
      assert GATED_END[k] == if k < 1 then BOOT_END[0] else if k == 1 then ')' else BOOT_END[k - 1];
      assert GATED_END[2] == ')' && GATED_END[21] == BOOT_END[20];
    }
  }

  /** Where a closing marker can start: at a bracket with a full stop two places on. */
  lemma EndStarts(text: string, i: int)
    requires Occurs(text, BOOT_END, i)
    ensures text[i] == ']' && text[i + 2] == '.'
  {
    assert text[i..i + |BOOT_END|] == BOOT_END;
    assert BOOT_END[0] == ']' && BOOT_END[2] == '.';
  }

  lemma StartStarts(text: string, i: int)
    requires Occurs(text, BOOT_START, i)
    ensures text[i] == 'P'
  {
    assert text[i..i + |BOOT_START|] == BOOT_START;
  }

  lemma PIsFirst()
    ensures forall k :: 0 < k < |BOOT_START| ==> BOOT_START[k] != 'P'
    ensures forall k :: 0 <= k < |BOOT_END| ==> BOOT_END[k] != 'P'
    ensures forall k :: 0 <= k < |GATED_END| ==> GATED_END[k] != 'P'
  {
    EndLetters();
    assert forall k :: 0 <= k < |BOOT_END| ==> BOOT_END[k] in BOOT_END;
    forall k | 0 <= k < |GATED_END| ensures GATED_END[k] != 'P' {
      assert k > 2 ==> GATED_END[k] == BOOT_END[k - 1];
    }
  }

  /** Around the only opening marker, one plain and one already gated closing marker, in either order. */
  function Page(plainFirst: bool): string {
    BOOT_START + if plainFirst then BOOT_END + GATED_END else GATED_END + BOOT_END
  }

  function EndOf(plainFirst: bool): nat {
    |BOOT_START| + if plainFirst then 0 else |GATED_END|
  }

  lemma OnlyInPage(plainFirst: bool)
    ensures OnlyAt(Page(plainFirst), BOOT_START, 0)
    ensures OnlyAt(Page(plainFirst), BOOT_END, EndOf(plainFirst))
  {
    var page, end := Page(plainFirst), EndOf(plainFirst);
    PIsFirst();
    EndPlaces();
    StartLetters();
    assert page[0..|BOOT_START|] == BOOT_START && page[end..end + |BOOT_END|] == BOOT_END;
    assert forall k :: 0 <= k < |BOOT_START| ==> BOOT_START[k] in BOOT_START;
    forall i | Occurs(page, BOOT_START, i) ensures i == 0 {
      StartStarts(page, i);
    }
    forall i | Occurs(page, BOOT_END, i) ensures i == end {
      EndStarts(page, i);
    }
  }

  lemma InsertBetween(a: string, b: string, piece: string)
    ensures Insert(a + b, |a|, piece) == a + piece + b
  {
    assert (a + b)[..|a|] == a && (a + b)[|a|..] == b;
  }

  lemma CutInside(gate: string, opening: string, before: string, closing: string, after: string)
    requires closing != ""
    ensures gate + (opening + (before + closing + after)) ==
            (gate + opening + before + closing[..1]) + (closing[1..] + after)
  {
    assert closing == closing[..1] + closing[1..];
    var x, y := before + closing[..1], closing[1..] + after;
    assert before + closing + after == x + y;
    assert opening + (x + y) == (opening + x) + y;
    assert gate + ((opening + x) + y) == (gate + (opening + x)) + y;
    assert gate + (opening + x) == gate + opening + before + closing[..1];
  }

  lemma JoinsAround(gate: string, opening: string, before: string, closing: string, after: string)
    requires closing != ""
    ensures (gate + opening + before + closing[..1]) + ")" + (closing[1..] + after) ==
            gate + opening + (before + Insert(closing, 1, ")") + after)
  {
    var gated := Insert(closing, 1, ")");
    assert gated == closing[..1] + ")" + closing[1..];
    var head := gate + opening;
    assert before + gated + after == (before + closing[..1]) + (")" + (closing[1..] + after));
    assert head + ((before + closing[..1]) + (")" + (closing[1..] + after))) ==
           (head + (before + closing[..1])) + (")" + (closing[1..] + after));
    assert head + (before + closing[..1]) == head + before + closing[..1];
  }

  lemma GatesTo(opening: string, closing: string, gate: string, before: string, after: string)
    requires closing != ""
    ensures
      var page := opening + (before + closing + after);
      Insert(Insert(page, 0, gate), |opening| + |before| + |gate| + 1, ")") ==
      gate + opening + (before + Insert(closing, 1, ")") + after)
  {
    var page := opening + (before + closing + after);
    CutInside(gate, opening, before, closing, after);
    JoinsAround(gate, opening, before, closing, after);
    InsertInFront(page, gate);
    InsertBetween(gate + opening + before + closing[..1], closing[1..] + after, ")");
  }

  lemma InsertInFront(text: string, piece: string)
    ensures Insert(text, 0, piece) == piece + text
  {
  }

  lemma PageGatesAround(plainFirst: bool, before: string, after: string)
    requires Page(plainFirst) == BOOT_START + (before + BOOT_END + after)
    requires EndOf(plainFirst) == |BOOT_START| + |before|
    ensures GateWhisperingBootstrap(Page(plainFirst)) == Ok(GATE + BOOT_START + (before + GATED_END + after))
  {
    OnlyInPage(plainFirst);
    GatingInserts(Page(plainFirst), 0, EndOf(plainFirst));
    GatedEndIsEndWithParenthesis();
    GatesTo(BOOT_START, BOOT_END, GATE, before, after);
  }

  lemma PageGates(plainFirst: bool)
    ensures GateWhisperingBootstrap(Page(plainFirst)) == Ok(GATE + BOOT_START + (GATED_END + GATED_END))
  {
    var before, after := if plainFirst then "" else GATED_END, if plainFirst then GATED_END else "";
    assert before + BOOT_END + after == if plainFirst then BOOT_END + GATED_END else GATED_END + BOOT_END;
    assert before + GATED_END + after == GATED_END + GATED_END;
    PageGatesAround(plainFirst, before, after);
  }

  lemma PagesDiffer()
    ensures Page(true) != Page(false)
  {
    var n := |BOOT_START|;
    assert Page(true)[n..] == BOOT_END + GATED_END && Page(false)[n..] == GATED_END + BOOT_END;
    assert Page(true)[n + 2] == BOOT_END[2] == '.' && Page(false)[n + 2] == GATED_END[2] == ')';
  }

  /** The result does not tell which page it came from, if a page already holds a gated closing marker:
      undoing needs the places, not only the texts. */
  lemma TwoPagesOneResult()
    ensures Page(true) != Page(false)
    ensures GateWhisperingBootstrap(Page(true)).Ok?
    ensures GateWhisperingBootstrap(Page(true)) == GateWhisperingBootstrap(Page(false))
  {
    PageGates(true);
    PageGates(false);
    PagesDiffer();
  }

  // ---------------------------------------------------------------- when the result tells the page

  /** No other page has this page's result. */
  ghost predicate Determined(html: string) {
    forall other :: GateWhisperingBootstrap(other) == GateWhisperingBootstrap(html) ==> other == html
  }

  /** The only closing parenthesis followed by another, or by nothing, is the second character. */
  predicate DoubledAtOne(text: string) {
    forall k :: 0 <= k < |text| && text[k] == ')' && (k + 1 < |text| ==> text[k + 1] == ')') ==> k == 1
  }

  lemma GatedEndLetters()
    ensures GATED_END[0] == ']' && Lacks(GATED_END, 'w') && Lacks(GATED_END, 'P')
    ensures DoubledAtOne(GATED_END)
  {
    EndLetters();
    EndIsBorderless();
    GatedEndIsEndWithParenthesis();
    assert BOOT_END[20] == ' ' && BOOT_END[2] == '.';
    forall k | 0 <= k < |GATED_END|
      ensures GATED_END[k] != 'w' && GATED_END[k] != 'P'
      ensures GATED_END[k] == ')' && (k + 1 < |GATED_END| ==> GATED_END[k + 1] == ')') ==> k == 1
    {
      assert GATED_END[k] == if k < 1 then BOOT_END[0] else if k == 1 then ')' else BOOT_END[k - 1];
      assert k + 1 < |GATED_END| && k > 0 ==> GATED_END[k + 1] == BOOT_END[k];
      assert forall j :: 0 <= j < |BOOT_END| ==> BOOT_END[j] in BOOT_END;
    }
  }

  lemma GateIsForeignToGatedEnd()
    ensures Foreign(GATE, GATED_END)
  {
    GateLetters();
    GatedEndLetters();
    assert GATE[0] == READY[0] == 'w';
    assert forall k :: 0 <= k < |GATE| ==> GATE[k] in GATE;
  }

  lemma ShowsAtEnd(html: string, start: nat, end: nat)
    requires OnlyAt(html, BOOT_START, start) && OnlyAt(html, BOOT_END, end)
    ensures Occurs(Gated(html, start, end), GATED_END, Shifted(end, start, GATE))
  {
    GatingInserts(html, start, end);
    GatedEndIsEndWithParenthesis();
    SplitsInPlace(Insert(html, start, GATE), BOOT_END, Shifted(end, start, GATE));
  }

  lemma SplitsInPlace(text: string, marker: string, at: nat)
    requires marker != "" && Occurs(text, marker, at)
    ensures Occurs(Insert(text, at + 1, ")"), Insert(marker, 1, ")"), at)
  {
    var after, end := Insert(text, at + 1, ")"), at + |marker|;
    assert text[at..end] == marker;
    assert text[at..at + 1] == marker[..1] && text[at + 1..end] == marker[1..];
    assert text == text[..at] + text[at..at + 1] + text[at + 1..end] + text[end..];
    assert after == text[..at] + (marker[..1] + ")" + marker[1..]) + text[end..];
  }

  lemma OtherSplitWasThere(once: string, gated: string, at: nat, i: int)
    requires |gated| > 1 && DoubledAtOne(gated) && at + 1 < |once| && once[at + 1] == ')'
    requires Occurs(Insert(once, at + 1, ")"), gated, i) && i != at
    ensures Occurs(once, gated, i) || Occurs(once, gated, i - 1)
  {
    InsertionCases(once, at + 1, ")", gated, i);
  }

  lemma ForeignLeaves(html: string, start: nat, gate: string, gated: string, i: int)
    requires start <= |html| && Foreign(gate, gated) && Occurs(Insert(html, start, gate), gated, i)
    ensures exists j :: Occurs(html, gated, j)
  {
    InsertionCases(html, start, gate, gated, i);
    assert Occurs(html, gated, i) || Occurs(html, gated, i - |gate|);
  }

  lemma SecondCharacter(text: string, marker: string, at: nat)
    requires |marker| > 1 && Occurs(text, marker, at)
    ensures text[at + 1] == marker[1]
  {
    assert text[at..at + |marker|][1] == text[at + 1];
  }

  /** Any other gated closing marker of the result was in the page. */
  lemma OtherGatedEndWasThere(html: string, start: nat, end: nat, i: int)
    requires OnlyAt(html, BOOT_START, start) && OnlyAt(html, BOOT_END, end)
    requires Occurs(Gated(html, start, end), GATED_END, i) && i != Shifted(end, start, GATE)
    ensures exists j :: Occurs(html, GATED_END, j)
  {
    GatingInserts(html, start, end);
    var once, at := Insert(html, start, GATE), Shifted(end, start, GATE);
    GatedEndLetters();
    EndIsSplittable();
    SecondCharacter(once, BOOT_END, at);
    OtherSplitWasThere(once, GATED_END, at, i);
    GateIsForeignToGatedEnd();
    ForeignLeaves(html, start, GATE, GATED_END, if Occurs(once, GATED_END, i) then i else i - 1);
  }

  /** One result, split at one place, comes from one page. */
  lemma SamePlaceSamePage(a: string, startA: nat, endA: nat, b: string, startB: nat, endB: nat)
    requires OnlyAt(a, BOOT_START, startA) && OnlyAt(a, BOOT_END, endA)
    requires OnlyAt(b, BOOT_START, startB) && OnlyAt(b, BOOT_END, endB)
    requires Gated(a, startA, endA) == Gated(b, startB, endB)
    requires Shifted(endA, startA, GATE) == Shifted(endB, startB, GATE)
    ensures a == b
  {
    var onceA, onceB := Insert(a, startA, GATE), Insert(b, startB, GATE);
    RemoveUndoesInsert(onceA, Shifted(endA, startA, GATE) + 1, ")");
    RemoveUndoesInsert(onceB, Shifted(endB, startB, GATE) + 1, ")");
    assert onceA == onceB;
    OnlyStart(a, startA);
    OnlyStart(b, startB);
    RemoveUndoesInsert(a, startA, GATE);
    RemoveUndoesInsert(b, startB, GATE);
  }

  lemma Places(html: string) returns (start: nat, end: nat)
    requires GateWhisperingBootstrap(html).Ok?
    ensures OnlyAt(html, BOOT_START, start) && OnlyAt(html, BOOT_END, end)
    ensures GateWhisperingBootstrap(html) == Ok(Gated(html, start, end))
  {
    AcceptsExactlySingleMarkers(html);
    start :| OnlyAt(html, BOOT_START, start);
    end :| OnlyAt(html, BOOT_END, end);
    GatingInserts(html, start, end);
  }

  lemma UngatedIsDetermined(html: string, other: string)
    requires GateWhisperingBootstrap(html).Ok? && forall i :: !Occurs(html, GATED_END, i)
    requires GateWhisperingBootstrap(other) == GateWhisperingBootstrap(html)
    ensures other == html
  {
    var start, end := Places(html);
    var start2, end2 := Places(other);
    ShowsAtEnd(other, start2, end2);
    if Shifted(end2, start2, GATE) != Shifted(end, start, GATE) {
      OtherGatedEndWasThere(html, start, end, Shifted(end2, start2, GATE));
    } else {
      SamePlaceSamePage(html, start, end, other, start2, end2);
    }
  }

  // ---------------------------------------------------------------- every gated marker gives a page

  /** Neither marker holds the other's first character. */
  predicate Disjoint(a: string, b: string) {
    && a != "" && b != ""
    && (forall k :: 0 <= k < |a| ==> a[k] != b[0])
    && (forall k :: 0 <= k < |b| ==> b[k] != a[0])
  }

  lemma DisjointApart(text: string, a: string, i: int, b: string, j: int)
    requires Disjoint(a, b) && Occurs(text, a, i) && Occurs(text, b, j)
    ensures i + |a| <= j || j + |b| <= i
  {
    SharedPlaces(text, a, i, b, j);
    SharedPlaces(text, b, j, a, i);
  }

  lemma RemovedComesBack(text: string, at: nat, piece: string)
    requires Occurs(text, piece, at)
    ensures Insert(Remove(text, at, |piece|), at, piece) == text
  {
    assert text == text[..at] + text[at..at + |piece|] + text[at + |piece|..];
  }

  lemma OccursSplits(text: string, marker: string, at: nat)
    requires Occurs(text, marker, at)
    ensures text == text[..at] + marker + text[at + |marker|..]
  {
    assert text == text[..at] + text[at..at + |marker|] + text[at + |marker|..];
  }

  lemma OccursBetween(a: string, marker: string, b: string)
    ensures Occurs(a + marker + b, marker, |a|)
  {
    assert (a + marker + b)[|a|..|a| + |marker|] == marker;
  }

  lemma WithoutParenthesis(a: string, closing: string, b: string)
    requires |closing| > 1
    ensures
      var out := a + Insert(closing, 1, ")") + b;
      Remove(out, |a| + 1, 1) == a + closing + b && Insert(a + closing + b, |a| + 1, ")") == out
  {
    var head, tail := a + closing[..1], closing[1..] + b;
    assert closing == closing[..1] + closing[1..];
    assert a + Insert(closing, 1, ")") + b == head + ")" + tail;
    assert a + closing + b == head + tail;
    InsertBetween(head, tail, ")");
    RemoveUndoesInsert(head + tail, |a| + 1, ")");
  }

  lemma ClosesAgain(out: string, closing: string, g: nat)
    requires |closing| > 1 && Occurs(out, Insert(closing, 1, ")"), g)
    ensures g + 2 <= |out| && Insert(Remove(out, g + 1, 1), g + 1, ")") == out
    ensures Occurs(Remove(out, g + 1, 1), closing, g)
  {
    var gated := Insert(closing, 1, ")");
    OccursSplits(out, gated, g);
    WithoutParenthesis(out[..g], closing, out[g + |gated|..]);
    OccursBetween(out[..g], closing, out[g + |gated|..]);
  }

  lemma OnlyClosing(out: string, once: string, closing: string, g: nat)
    requires closing != "" && Borderless(closing) && Occurs(once, closing, g)
    requires g + 1 <= |once| && out == Insert(once, g + 1, ")") && forall i :: !Occurs(out, closing, i)
    ensures OnlyAt(once, closing, g)
  {
    forall i | Occurs(once, closing, i) ensures i == g {
      OccurrencesMove(once, g + 1, ")", closing, i);
      if i < g {
        NoSelfOverlap(once, closing, i, g);
      } else if g < i {
        NoSelfOverlap(once, closing, g, i);
      }
    }
  }

  lemma OnlyOpening(once: string, opening: string, closing: string, p: nat, g: nat) returns (p2: nat)
    requires Disjoint(opening, closing) && Foreign(")", opening) && Occurs(once, closing, g)
    requires g + 1 <= |once| && OnlyAt(Insert(once, g + 1, ")"), opening, p)
    requires g + |closing| + 1 <= p || p + |opening| <= g
    ensures p2 == (if g < p then p - 1 else p) && OnlyAt(once, opening, p2)
  {
    p2 := if g < p then p - 1 else p;
    InsertionCases(once, g + 1, ")", opening, p);
    forall i | Occurs(once, opening, i) ensures i == p2 {
      DisjointApart(once, opening, i, closing, g);
      OccurrencesMove(once, g + 1, ")", opening, i);
    }
  }

  /** Taking the parenthesis out of a gated marker leaves the only closing marker, and the only opening
      one where it was. */
  lemma TakingParenthesisOut(out: string, opening: string, closing: string, p: nat, g: nat)
    returns (once: string, p2: nat)
    requires |closing| > 1 && Borderless(closing) && Disjoint(opening, closing) && Foreign(")", opening)
    requires Occurs(out, Insert(closing, 1, ")"), g) && forall i :: !Occurs(out, closing, i)
    requires OnlyAt(out, opening, p) && (g + |closing| + 1 <= p || p + |opening| <= g)
    ensures g + 1 <= |once| && Insert(once, g + 1, ")") == out
    ensures p2 == if g < p then p - 1 else p
    ensures OnlyAt(once, closing, g) && OnlyAt(once, opening, p2)
  {
    ClosesAgain(out, closing, g);
    once := Remove(out, g + 1, 1);
    OnlyClosing(out, once, closing, g);
    p2 := OnlyOpening(once, opening, closing, p, g);
  }

  /** Taking the gate out from in front of the only opening marker leaves both markers alone. */
  lemma TakingGateOut(once: string, opening: string, closing: string, gate: string, p: nat, g: nat)
    returns (html: string, start: nat, end: nat)
    requires Borderless(opening) && Disjoint(opening, closing) && Foreign(gate, closing) && |opening| > 1
    requires OnlyAt(once, opening, p) && OnlyAt(once, closing, g)
    requires |gate| <= p && Occurs(once, gate, p - |gate|) && (g + |closing| <= p - |gate| || p <= g)
    ensures OnlyAt(html, opening, start) && OnlyAt(html, closing, end)
    ensures Insert(html, start, gate) == once && Shifted(end, start, gate) == g
  {
    start := p - |gate|;
    html := Remove(once, start, |gate|);
    RemovedComesBack(once, start, gate);
    assert html[start..start + |opening|] == once[p..p + |opening|];
    forall i | Occurs(html, opening, i) ensures i == start {
      OccurrencesMove(html, start, gate, opening, i);
      if i < start {
        NoSelfOverlap(html, opening, i, start);
      }
    }
    end := if g < start then g else g - |gate|;
    InsertionCases(html, start, gate, closing, g);
    forall i | Occurs(html, closing, i) ensures i == end {
      DisjointApart(html, opening, start, closing, i);
      OccurrencesMove(html, start, gate, closing, i);
    }
  }

  lemma MarkersAreDisjoint()
    ensures Disjoint(BOOT_START, BOOT_END) && Disjoint(BOOT_START, GATED_END) && Disjoint(GATE, GATED_END)
  {
    MarkersShareNothing();
    StartLetters();
    EndLetters();
    GateLetters();
    GatedEndLetters();
    assert BOOT_START[0] == BOOT_START[..2][0] && GATE[0] == READY[0] == 'w';
    assert forall k :: 0 <= k < |GATED_END| ==> GATED_END[k] in GATED_END;
    assert forall k :: 0 <= k < |BOOT_START| ==> BOOT_START[k] in BOOT_START;
    assert forall k :: 0 <= k < |GATE| ==> GATE[k] in GATE;
  }

  lemma MarkersFit()
    ensures Disjoint(BOOT_START, BOOT_END) && Disjoint(BOOT_START, GATED_END) && Disjoint(GATE, GATED_END)
    ensures Foreign(GATE, BOOT_END) && Foreign(")", BOOT_START)
    ensures Borderless(BOOT_START) && Borderless(BOOT_END) && |BOOT_START| > 1 && |BOOT_END| > 1
    ensures GATED_END == Insert(BOOT_END, 1, ")")
  {
    MarkersAreDisjoint();
    InsertionsAreForeign();
    GatedEndIsEndWithParenthesis();
    StartIsBorderless();
    EndIsBorderless();
  }

  lemma SplitAt(out: string, opening: string, closing: string, gated: string, gate: string, p: nat, g: nat)
    returns (html: string, start: nat, end: nat)
    requires Disjoint(opening, closing) && Disjoint(opening, gated) && Disjoint(gate, gated)
    requires Foreign(gate, closing) && Foreign(")", opening) && Borderless(opening) && Borderless(closing)
    requires |opening| > 1 && |closing| > 1 && gated == Insert(closing, 1, ")")
    requires OnlyAt(out, opening, p) && |gate| <= p && Occurs(out, gate, p - |gate|)
    requires (forall i :: !Occurs(out, closing, i)) && Occurs(out, gated, g)
    ensures OnlyAt(html, opening, start) && OnlyAt(html, closing, end)
    ensures Insert(Insert(html, start, gate), Shifted(end, start, gate) + 1, ")") == out
    ensures Shifted(end, start, gate) == g
  {
    DisjointApart(out, opening, p, gated, g);
    DisjointApart(out, gate, p - |gate|, gated, g);
    var once, p2 := TakingParenthesisOut(out, opening, closing, p, g);
    GateMoves(out, once, gate, p, g);
    html, start, end := TakingGateOut(once, opening, closing, gate, p2, g);
  }

  /** Each gated closing marker of a result is the mark of one page with that result. */
  lemma PageSplitAt(out: string, p: nat, g: nat) returns (html: string, start: nat, end: nat)
    requires OnlyAt(out, BOOT_START, p) && |GATE| <= p && Occurs(out, GATE, p - |GATE|)
    requires (forall i :: !Occurs(out, BOOT_END, i)) && Occurs(out, GATED_END, g)
    ensures OnlyAt(html, BOOT_START, start) && OnlyAt(html, BOOT_END, end)
    ensures Gated(html, start, end) == out && Shifted(end, start, GATE) == g
  {
    MarkersFit();
    html, start, end := SplitAt(out, BOOT_START, BOOT_END, GATED_END, GATE, p, g);
  }

  lemma GateMoves(out: string, once: string, gate: string, p: nat, g: nat)
    requires |gate| <= p && Occurs(out, gate, p - |gate|) && g + 1 <= |once| && Insert(once, g + 1, ")") == out
    requires g + 2 <= p - |gate| || p <= g
    ensures Occurs(once, gate, (if g < p then p - 1 else p) - |gate|)
  {
    var s := p - |gate|;
    if g < p {
      assert once[s - 1..s - 1 + |gate|] == out[s..s + |gate|];
    } else {
      assert once[s..s + |gate|] == out[s..s + |gate|];
    }
  }

  lemma GateStandsBefore(html: string, start: nat, end: nat) returns (p: nat)
    requires OnlyAt(html, BOOT_START, start) && OnlyAt(html, BOOT_END, end)
    ensures |GATE| <= p && OnlyAt(Gated(html, start, end), BOOT_START, p)
    ensures Occurs(Gated(html, start, end), GATE, p - |GATE|)
  {
    OnlyStart(html, start);
    MarkersApart(html, start, end);
    InsertionsAreForeign();
    var once, at := Insert(html, start, GATE), Shifted(end, start, GATE) + 1;
    OnlyStaysOnly(once, at, ")", BOOT_START, start + |GATE|);
    p := Shifted(start + |GATE|, at, ")");
    assert once[start..start + |GATE|] == GATE;
    OccurrencesMove(once, at, ")", GATE, start);
  }

  lemma StaysBeside(html: string, gate: string, start: nat, gated: string, j: nat, at: nat) returns (g: nat)
    requires start <= |html| && Occurs(html, gated, j) && (j + |gated| <= start || start <= j)
    requires
      var j2 := Shifted(j, start, gate);
      at + 1 <= |html| + |gate| && (j2 + |gated| <= at + 1 || at + 1 <= j2) && gated != "" && j2 != at
    ensures Occurs(Insert(Insert(html, start, gate), at + 1, ")"), gated, g) && g != at
  {
    OccurrencesMove(html, start, gate, gated, j);
    var j2 := Shifted(j, start, gate);
    OccurrencesMove(Insert(html, start, gate), at + 1, ")", gated, j2);
    g := if j2 < at + 1 then j2 else j2 + 1;
  }

  lemma MarkerStands(html: string, opening: string, gate: string, gated: string, start: nat, j: nat)
    requires Disjoint(opening, gated) && Occurs(html, opening, start) && Occurs(html, gated, j)
    ensures j + |gated| <= start || start <= j
    ensures Occurs(Insert(html, start, gate), gated, Shifted(j, start, gate))
  {
    DisjointApart(html, opening, start, gated, j);
    OccurrencesMove(html, start, gate, gated, j);
  }

  lemma GatedEndStays(html: string, start: nat, end: nat, j: nat) returns (g: nat)
    requires OnlyAt(html, BOOT_START, start) && OnlyAt(html, BOOT_END, end) && Occurs(html, GATED_END, j)
    ensures Occurs(Gated(html, start, end), GATED_END, g) && g != Shifted(end, start, GATE)
  {
    GatingInserts(html, start, end);
    MarkersAreDisjoint();
    MarkerStands(html, BOOT_START, GATE, GATED_END, start, j);
    EndNotInside(Insert(html, start, GATE), Shifted(end, start, GATE), Shifted(j, start, GATE));
    g := StaysBeside(html, GATE, start, GATED_END, j, Shifted(end, start, GATE));
  }

  /** Two texts at one place agree where both reach. */
  lemma SharedCharacter(text: string, a: string, i: int, b: string, j: int, k: nat)
    requires Occurs(text, a, i) && Occurs(text, b, j) && k < |b|
    ensures i <= j + k < i + |a| ==> a[j + k - i] == b[k]
  {
    assert text[j..j + |b|][k] == text[j + k];
    assert i <= j + k < i + |a| ==> text[i..i + |a|][j + k - i] == text[j + k];
  }

  lemma EndNotInside(text: string, end: nat, j: nat)
    requires Occurs(text, BOOT_END, end) && Occurs(text, GATED_END, j)
    ensures j + |GATED_END| <= end + 1 || end + 1 <= j
    ensures j != end
  {
    assert BOOT_END[0] == ']' && BOOT_END[2] == '.';
    EndPlaces();
    SharedCharacter(text, GATED_END, j, BOOT_END, end, 0);
    SharedCharacter(text, GATED_END, j, BOOT_END, end, 2);
  }

  lemma GatedIsUndetermined(html: string, j: nat)
    requires GateWhisperingBootstrap(html).Ok? && Occurs(html, GATED_END, j)
    ensures !Determined(html)
  {
    var start, end := Places(html);
    var p := GateStandsBefore(html, start, end);
    var g := GatedEndStays(html, start, end, j);
    GatedHasNoEnd(html, start, end);
    var other, start2, end2 := PageSplitAt(Gated(html, start, end), p, g);
    GatingInserts(other, start2, end2);
    assert other != html;
  }

  /** A result tells its page if and only if the page held no gated closing marker before. */
  lemma ResultTellsPageIff(html: string)
    requires GateWhisperingBootstrap(html).Ok?
    ensures Determined(html) <==> forall i :: !Occurs(html, GATED_END, i)
  {
    if i :| Occurs(html, GATED_END, i) {
      GatedIsUndetermined(html, i);
    } else {
      forall other | GateWhisperingBootstrap(other) == GateWhisperingBootstrap(html) ensures other == html {
        UngatedIsDetermined(html, other);
      }
    }
  }
}
