/**
 What the spec ledger takes for a header, an added spec, a date in order and a year
 (scripts/generate-spec-history.ts), each described on its own.
 */
module SpecReading {
  import opened Prelude
  import opened Strings
  import opened SpecHistory

  /** The path runs through a directory `specs` and ends in `.md`. */
  predicate UnderSpecs(path: string, above: string, below: string) {
    path == above + "specs/" + below + ".md" && (above == "" || above[|above| - 1] == '/')
  }

  lemma SpecsSplit(path: string, i: nat)
    requires SpecsAt(path, i) && i + 9 <= |path| && EndsWith(path, ".md")
    ensures UnderSpecs(path, path[..i], path[i + 6..|path| - 3])
  {
    assert path[i..i + 6] == "specs/" && path[|path| - 3..] == ".md";
    assert path == path[..i] + path[i..i + 6] + path[i + 6..|path| - 3] + path[|path| - 3..];
  }

  lemma SplitHasSpecs(path: string, above: string, below: string)
    requires UnderSpecs(path, above, below)
    ensures SpecsAt(path, |above|) && |above| + 9 <= |path| && EndsWith(path, ".md")
  {
    var i := |above|;
    assert path[i..i + 6] == "specs/";
    assert path[|path| - 3..] == ".md";
  }

  /** A spec is a Markdown file somewhere below a directory named `specs`, save one named README.md in a directory. */
  lemma IsSpecIff(path: string)
    ensures IsSpec(path) <==>
            (exists above, below :: UnderSpecs(path, above, below)) && !exists dir :: path == dir + "/README.md"
  {
    if EndsWith(path, "/README.md") {
      assert path == path[..|path| - 10] + "/README.md";
    }
    if dir :| path == dir + "/README.md" {
      assert path[|path| - 10..] == "/README.md";
    }
    if IsSpec(path) {
      var i :| 0 <= i && i + 9 <= |path| && SpecsAt(path, i);
      SpecsSplit(path, i);
    }
    if above, below :| UnderSpecs(path, above, below) {
      SplitHasSpecs(path, above, below);
    }
  }

  /** A line is a header exactly if it opens with three at signs, whatever follows, trimmed, being its date; and it
      adds a path exactly if it is that spec behind an `A` and a tab. */
  lemma LinesReadAs(line: string, rest: string)
    ensures HeaderOf("@@@" + rest) == Some(Trim(rest))
    ensures HeaderOf(line).Some? ==> line == "@@@" + line[3..]
    ensures AddedBy(line) == Some(rest) <==> line == "A\t" + rest && IsSpec(rest)
  {
    assert ("@@@" + rest)[3..] == rest;
    assert StartsWith("@@@" + rest, "@@@");
    if line == "A\t" + rest && IsSpec(rest) {
      assert line[2..] == rest && line[0] == 'A';
    }
    if AddedBy(line) == Some(rest) {
      assert line == "A\t" + line[2..];
    }
  }

  // ---------------------------------------------------------------- order

  /** Dictionary order: `a` ends where `b` goes on, or has the smaller character where they first differ. */
  predicate Precedes(a: string, b: string, k: nat) {
    && k <= |a| && k <= |b| && a[..k] == b[..k]
    && (if k == |a| then k < |b| else k < |b| && a[k] < b[k])
  }

  lemma {:induction false} PrecedesIsNegative(a: string, b: string, k: nat)
    requires Precedes(a, b, k)
    ensures CompareText(a, b) < 0
    decreases k
  {
    if k > 0 {
      assert a[0] == a[..k][0] == b[..k][0] == b[0];
      assert a[1..][..k - 1] == a[..k][1..] == b[..k][1..] == b[1..][..k - 1];
      PrecedesIsNegative(a[1..], b[1..], k - 1);
    }
  }

  lemma {:induction false} NegativePrecedes(a: string, b: string) returns (k: nat)
    requires CompareText(a, b) < 0
    ensures Precedes(a, b, k)
    decreases |a|
  {
    if a == "" || b == "" || a[0] != b[0] {
      k := 0;
    } else {
      k := NegativePrecedes(a[1..], b[1..]);
      k := k + 1;
      assert a[..k] == [a[0]] + a[1..][..k - 1] && b[..k] == [b[0]] + b[1..][..k - 1];
    }
  }

  /** Dates compare as in a dictionary. */
  lemma CompareTextIff(a: string, b: string)
    ensures CompareText(a, b) < 0 <==> exists k: nat :: Precedes(a, b, k)
    ensures CompareText(a, b) == 0 <==> a == b
  {
    CompareTextSigns(a, b);
    if CompareText(a, b) < 0 {
      var k := NegativePrecedes(a, b);
    }
    if k: nat :| Precedes(a, b, k) {
      PrecedesIsNegative(a, b, k);
    }
  }

  /** How two rows may stand one before the other: dated ones first, by date and newest first, undated ones by
      title. */
  predicate MayPrecede(collate: (string, string) -> int, a: Row, b: Row) {
    if a.date.Some? && a.date.value != "" then
      b.date.Some? && b.date.value != "" ==> AtMost(b.date.value, a.date.value)
    else
      (b.date.None? || b.date.value == "") && collate(a.title, b.title) <= 0
  }

  lemma SortedIff(collate: (string, string) -> int, rows: seq<Row>)
    ensures Sorted(collate, rows) <==>
            forall i, j :: 0 <= i < j < |rows| ==> MayPrecede(collate, rows[i], rows[j])
  {
    forall i, j | 0 <= i < j < |rows|
      ensures Compare(collate, rows[i], rows[j]) <= 0 <==> MayPrecede(collate, rows[i], rows[j])
    {
    }
  }

  /** A dated row stands under its year, the first four characters of its date, and any other under `undated`. */
  lemma YearsAreFourDigits(row: Row, year: string, rest: string)
    requires |year| == 4
    ensures row.date == Some(year + rest) ==> YearOf(row) == year
    ensures row.date.None? || row.date.value == "" ==> YearOf(row) == "undated"
  {
    assert (year + rest)[..4] == year;
  }

  // ---------------------------------------------------------------- the order of the ledger

  /** Some line adds `p`, and no line up to it adds `q`. */
  predicate AddedBefore(lines: seq<string>, p: string, q: string, at: nat) {
    at < |lines| && AddedBy(lines[at]) == Some(p) && forall j :: 0 <= j <= at ==> AddedBy(lines[j]) != Some(q)
  }

  lemma {:induction false} MentionedAt(lines: seq<string>, p: string) returns (at: nat)
    requires p in Lines(lines).firstAdd.order
    ensures at < |lines| && AddedBy(lines[at]) == Some(p)
  {
    LedgerHolds(lines, p);
    at :| 0 <= at < |lines| && AddedBy(lines[at]) == Some(p);
  }

  /** The ledger lists specs by their first line in the log. */
  lemma {:induction false} LedgerKeepsOrder(lines: seq<string>, i: nat, j: nat) returns (at: nat)
    requires i < j < |Lines(lines).firstAdd.order|
    ensures AddedBefore(lines, Lines(lines).firstAdd.order[i], Lines(lines).firstAdd.order[j], at)
  {
    var n := |lines| - 1;
    var before := Lines(lines[..n]).firstAdd;
    var order := Lines(lines).firstAdd.order;
    var p, q := order[i], order[j];
    assert before.order <= order && |order| <= |before.order| + 1;
    if j < |before.order| {
      at := LedgerKeepsOrder(lines[..n], i, j);
    } else {
      assert p == before.order[i] && p in before.order;
      at := MentionedAt(lines[..n], p);
      LedgerHolds(lines[..n], q);
      assert !Mentions(lines[..n], q);
      forall m | 0 <= m <= at ensures AddedBy(lines[m]) != Some(q) {
        assert lines[..n][m] == lines[m];
      }
    }
    assert lines[..n][at] == lines[at];
  }
}
