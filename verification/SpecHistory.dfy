/**
 The spec ledger (scripts/generate-spec-history.ts): folding a git log into the date each spec was first
 added, ordering the rows, and grouping them by year in one pass.
 */
module SpecHistory {
  import opened Prelude
  import opened Strings

  // ---------------------------------------------------------------- the log

  /** `/(^|\/)specs\/.*\.md$/` and not a README. */
  predicate IsSpec(path: string) {
    && !EndsWith(path, "/README.md")
    && EndsWith(path, ".md")
    && exists i :: 0 <= i && i + 9 <= |path| && SpecsAt(path, i)
  }

  predicate SpecsAt(path: string, i: nat) {
    i + 6 <= |path| && path[i..i + 6] == "specs/" && (i == 0 || path[i - 1] == '/')
  }

  /** The date a header line carries. */
  function HeaderOf(line: string): Option<string> {
    if StartsWith(line, "@@@") then Some(Trim(line[3..])) else None
  }

  /** The spec a line adds. */
  function AddedBy(line: string): Option<string> {
    if !StartsWith(line, "@@@") && StartsWith(line, "A\t") && |line| > 2 && IsSpec(line[2..]) then Some(line[2..])
    else None
  }

  /** A `Map` with its keys in insertion order. */
  datatype Ledger = Ledger(order: seq<string>, dates: map<string, Option<string>>)

  function Set(ledger: Ledger, path: string, date: Option<string>): Ledger {
    Ledger(if path in ledger.dates then ledger.order else ledger.order + [path], ledger.dates[path := date])
  }

  datatype Fold = Fold(curDate: Option<string>, firstAdd: Ledger)

  function Line(state: Fold, line: string): Fold {
    if HeaderOf(line).Some? then state.(curDate := HeaderOf(line))
    else if AddedBy(line).Some? then state.(firstAdd := Set(state.firstAdd, AddedBy(line).value, state.curDate))
    else state
  }

  function Lines(lines: seq<string>): Fold {
    if lines == [] then Fold(None, Ledger([], map[]))
    else Line(Lines(lines[..|lines| - 1]), lines[|lines| - 1])
  }

  /** The loop over the log. */
  method FirstAdds(lines: seq<string>) returns (firstAdd: Ledger)
    ensures firstAdd == Lines(lines).firstAdd
  {
    var curDate: Option<string> := None;
    firstAdd := Ledger([], map[]);
    var n := 0;
    while n < |lines|
      invariant 0 <= n <= |lines|
      invariant Fold(curDate, firstAdd) == Lines(lines[..n])
    {
      var line := lines[n];
      assert lines[..n + 1][..n] == lines[..n];
      n := n + 1;
      if StartsWith(line, "@@@") {
        curDate := Some(Trim(line[3..]));
        continue;
      }
      var path := AddedBy(line);
      if path.Some? {
        firstAdd := Set(firstAdd, path.value, curDate);
      }
    }
    assert lines[..n] == lines;
  }

  // ---------------------------------------------------------------- what the fold means

  /** The last header before a line, if any. */
  function DateAt(lines: seq<string>, at: nat): Option<string>
    requires at <= |lines|
  {
    if at == 0 then None
    else if HeaderOf(lines[at - 1]).Some? then HeaderOf(lines[at - 1])
    else DateAt(lines, at - 1)
  }

  /** `at` is where the log last adds the path. */
  predicate LastAdd(lines: seq<string>, path: string, at: int) {
    && 0 <= at < |lines| && AddedBy(lines[at]) == Some(path)
    && forall j :: at < j < |lines| ==> AddedBy(lines[j]) != Some(path)
  }

  lemma {:induction false} DateAtPrefix(lines: seq<string>, n: nat, at: nat)
    requires at <= n <= |lines|
    ensures DateAt(lines[..n], at) == DateAt(lines, at)
    decreases at
  {
    if at > 0 {
      DateAtPrefix(lines, n, at - 1);
    }
  }

  lemma {:induction false} CurDateIsLastHeader(lines: seq<string>)
    ensures Lines(lines).curDate == DateAt(lines, |lines|)
  {
    if lines != [] {
      var n := |lines| - 1;
      CurDateIsLastHeader(lines[..n]);
      DateAtPrefix(lines, n, n);
    }
  }

  predicate Mentions(lines: seq<string>, path: string) {
    exists i :: 0 <= i < |lines| && AddedBy(lines[i]) == Some(path)
  }

  lemma MentionsPrefix(lines: seq<string>, path: string)
    requires lines != []
    ensures Mentions(lines, path) <==>
            Mentions(lines[..|lines| - 1], path) || AddedBy(lines[|lines| - 1]) == Some(path)
  {
    var before := lines[..|lines| - 1];
    if Mentions(before, path) {
      var i :| 0 <= i < |before| && AddedBy(before[i]) == Some(path);
      assert lines[i] == before[i];
    }
    if Mentions(lines, path) && AddedBy(lines[|lines| - 1]) != Some(path) {
      var i :| 0 <= i < |lines| && AddedBy(lines[i]) == Some(path);
      assert before[i] == lines[i];
    }
  }

  /** The ledger holds exactly the specs the log adds, once each. */
  lemma {:induction false} LedgerHolds(lines: seq<string>, path: string)
    ensures path in Lines(lines).firstAdd.dates <==> Mentions(lines, path)
    ensures path in Lines(lines).firstAdd.order <==> path in Lines(lines).firstAdd.dates
    ensures Unique(Lines(lines).firstAdd.order)
  {
    if lines != [] {
      var before := lines[..|lines| - 1];
      LedgerHolds(before, path);
      MentionsPrefix(lines, path);
      var line := lines[|lines| - 1];
      if AddedBy(line).Some? {
        LedgerHolds(before, AddedBy(line).value);
      }
    }
  }

  predicate Unique(order: seq<string>) {
    forall i, j :: 0 <= i < j < |order| ==> order[i] != order[j]
  }

  /** Each spec is dated by its last listed add: the header that add stands under. */
  lemma {:induction false} DatedByLastAdd(lines: seq<string>, path: string, at: nat)
    requires LastAdd(lines, path, at)
    ensures path in Lines(lines).firstAdd.dates
    ensures Lines(lines).firstAdd.dates[path] == DateAt(lines, at)
  {
    var n := |lines| - 1;
    var before := lines[..n];
    if at == n {
      CurDateIsLastHeader(before);
      DateAtPrefix(lines, n, n);
    } else {
      assert forall j :: at < j < n ==> before[j] == lines[j];
      DatedByLastAdd(before, path, at);
      DateAtPrefix(lines, n, at);
      assert AddedBy(lines[n]) != Some(path);
    }
  }

  // ---------------------------------------------------------------- dates in order

  /** Text order, which is what `localeCompare` is on the digits and hyphens of a date. */
  function CompareText(a: string, b: string): int {
    if a == "" && b == "" then 0
    else if a == "" then -1
    else if b == "" then 1
    else if a[0] < b[0] then -1
    else if a[0] > b[0] then 1
    else CompareText(a[1..], b[1..])
  }

  predicate AtMost(a: string, b: string) { CompareText(a, b) <= 0 }

  lemma {:induction false} CompareTextSigns(a: string, b: string)
    ensures CompareText(a, b) == -CompareText(b, a)
    ensures CompareText(a, b) == 0 <==> a == b
    decreases |a|
  {
    if a != "" && b != "" && a[0] == b[0] {
      CompareTextSigns(a[1..], b[1..]);
      assert a == [a[0]] + a[1..] && b == [b[0]] + b[1..];
    }
  }

  lemma {:induction false} AtMostTransitive(a: string, b: string, c: string)
    requires AtMost(a, b) && AtMost(b, c)
    ensures AtMost(a, c)
    decreases |a|
  {
    if a != "" && b != "" && c != "" && a[0] == b[0] == c[0] {
      AtMostTransitive(a[1..], b[1..], c[1..]);
    }
  }

  /** Headers never get newer down the log. */
  predicate NewestFirst(lines: seq<string>) {
    forall i, j :: 0 <= i < j < |lines| && HeaderOf(lines[i]).Some? && HeaderOf(lines[j]).Some? ==>
      AtMost(HeaderOf(lines[j]).value, HeaderOf(lines[i]).value)
  }

  lemma {:induction false} DateAtIsHeader(lines: seq<string>, at: nat) returns (h: int)
    requires at <= |lines|
    ensures DateAt(lines, at).None? ==> forall i :: 0 <= i < at ==> HeaderOf(lines[i]).None?
    ensures DateAt(lines, at).Some? ==>
              0 <= h < at && HeaderOf(lines[h]) == DateAt(lines, at)
              && forall i :: h < i < at ==> HeaderOf(lines[i]).None?
  {
    if at == 0 {
      h := 0;
    } else if HeaderOf(lines[at - 1]).Some? {
      h := at - 1;
    } else {
      h := DateAtIsHeader(lines, at - 1);
    }
  }

  /** In a newest-first log the ledger has the earliest date of all of a spec's adds. */
  lemma EarliestWhenNewestFirst(lines: seq<string>, path: string, last: nat, other: nat)
    requires NewestFirst(lines) && LastAdd(lines, path, last)
    requires other < |lines| && AddedBy(lines[other]) == Some(path) && DateAt(lines, other).Some?
    ensures
      var dates := Lines(lines).firstAdd.dates;
      path in dates && dates[path].Some? && AtMost(dates[path].value, DateAt(lines, other).value)
  {
    DatedByLastAdd(lines, path, last);
    var g := DateAtIsHeader(lines, other);
    var h := DateAtIsHeader(lines, last);
    assert other <= last;
    assert DateAt(lines, last).Some?;
    assert g <= h;
    CompareTextSigns(DateAt(lines, last).value, DateAt(lines, other).value);
  }

  // ---------------------------------------------------------------- rows

  datatype Row = Row(date: Option<string>, title: string, path: string, present: bool)

  const UNDATED := "undated"

  /** A row has a date unless it is missing or empty. */
  predicate Dated(row: Row) {
    row.date.Some? && row.date.value != ""
  }

  function YearOf(row: Row): string {
    if Dated(row) then (if |row.date.value| < 4 then row.date.value else row.date.value[..4]) else UNDATED
  }

  /** The comparator: newest first, undated last and by title, which the locale compares. */
  function Compare(collate: (string, string) -> int, a: Row, b: Row): int {
    if !Dated(a) && !Dated(b) then collate(a.title, b.title)
    else if !Dated(a) then 1
    else if !Dated(b) then -1
    else CompareText(b.date.value, a.date.value)
  }

  predicate Collates(collate: (string, string) -> int, a: string, b: string, c: string) {
    && (collate(a, b) <= 0 <==> collate(b, a) >= 0)
    && (collate(a, b) <= 0 && collate(b, c) <= 0 ==> collate(a, c) <= 0)
  }

  /** The comparator orders all rows if the locale orders all titles: sorting with it makes sense. */
  lemma CompareIsAPreorder(collate: (string, string) -> int, a: Row, b: Row, c: Row)
    requires Collates(collate, a.title, b.title, c.title)
    ensures Compare(collate, a, b) <= 0 <==> Compare(collate, b, a) >= 0
    ensures Compare(collate, a, b) <= 0 && Compare(collate, b, c) <= 0 ==> Compare(collate, a, c) <= 0
  {
    if Dated(a) && Dated(b) {
      CompareTextSigns(a.date.value, b.date.value);
      if Dated(c) && Compare(collate, a, b) <= 0 && Compare(collate, b, c) <= 0 {
        AtMostTransitive(c.date.value, b.date.value, a.date.value);
      }
    }
  }

  predicate Sorted(collate: (string, string) -> int, rows: seq<Row>) {
    forall i, j :: 0 <= i < j < |rows| ==> Compare(collate, rows[i], rows[j]) <= 0
  }

  // ---------------------------------------------------------------- grouping

  datatype Group = Group(year: string, rows: seq<Row>)

  /** Where the year's group is, or -1. */
  function GroupAt(groups: seq<Group>, year: string): (at: int)
    ensures -1 <= at < |groups|
    ensures at >= 0 ==> groups[at].year == year
    ensures forall i :: 0 <= i < (if at < 0 then |groups| else at) ==> groups[i].year != year
  {
    if groups == [] then -1
    else if groups[0].year == year then 0
    else
      var at := GroupAt(groups[1..], year);
      assert forall i :: 0 < i < |groups| ==> groups[i] == groups[1..][i - 1];
      if at == -1 then -1 else at + 1
  }

  function AddRow(groups: seq<Group>, row: Row): seq<Group> {
    var at := GroupAt(groups, YearOf(row));
    if at == -1 then groups + [Group(YearOf(row), [row])]
    else groups[at := Group(groups[at].year, groups[at].rows + [row])]
  }

  function GroupRows(rows: seq<Row>): seq<Group> {
    if rows == [] then [] else AddRow(GroupRows(rows[..|rows| - 1]), rows[|rows| - 1])
  }

  /** A group object, reached from the list of groups and from the map by year. */
  class YearGroup {
    const year: string
    var rows: seq<Row>

    constructor (year: string)
      ensures this.year == year && rows == []
    {
      this.year := year;
      rows := [];
    }
  }

  function Snapshot(groups: seq<YearGroup>): (list: seq<Group>)
    reads set g | g in groups
    ensures |list| == |groups|
  {
    seq(|groups|, i requires 0 <= i < |groups| reads set g | g in groups => Group(groups[i].year, groups[i].rows))
  }

  ghost predicate Linked(groups: seq<YearGroup>, groupByYear: map<string, YearGroup>)
  {
    && (forall i :: 0 <= i < |groups| ==> groups[i].year in groupByYear && groupByYear[groups[i].year] == groups[i])
    && (forall year :: year in groupByYear ==> groupByYear[year] in groups && groupByYear[year].year == year)
    && (forall i, j :: 0 <= i < j < |groups| ==> groups[i] != groups[j])
  }

  lemma LinkedAt(groups: seq<YearGroup>, groupByYear: map<string, YearGroup>, list: seq<Group>, year: string)
    requires Linked(groups, groupByYear) && |list| == |groups|
    requires forall i :: 0 <= i < |groups| ==> list[i].year == groups[i].year
    ensures year in groupByYear <==> GroupAt(list, year) != -1
    ensures year in groupByYear ==> groupByYear[year] == groups[GroupAt(list, year)]
  {
    if year in groupByYear {
      var i :| 0 <= i < |groups| && groups[i] == groupByYear[year];
      assert list[i].year == year;
    }
  }

  lemma LinksNew(groups: seq<YearGroup>, groupByYear: map<string, YearGroup>, group: YearGroup)
    requires Linked(groups, groupByYear) && group.year !in groupByYear && group !in groups
    ensures Linked(groups + [group], groupByYear[group.year := group])
  {
  }

  /** One turn of the grouping loop. */
  method Place(groups: seq<YearGroup>, groupByYear: map<string, YearGroup>, row: Row)
    returns (nextGroups: seq<YearGroup>, nextByYear: map<string, YearGroup>)
    requires Linked(groups, groupByYear)
    modifies set g | g in groups
    ensures Linked(nextGroups, nextByYear)
    ensures forall g <- nextGroups :: g in groups || fresh(g)
    ensures Snapshot(nextGroups) == AddRow(old(Snapshot(groups)), row)
  {
    nextGroups, nextByYear := groups, groupByYear;
    var year := YearOf(row);
    ghost var list := Snapshot(groups);
    LinkedAt(groups, groupByYear, list, year);
    ghost var at := GroupAt(list, year);
    if year in groupByYear {
      var group := groupByYear[year];
      group.rows := group.rows + [row];
      forall i | 0 <= i < |groups| ensures Snapshot(groups)[i] == AddRow(list, row)[i] {
        assert i != at ==> groups[i] != group;
      }
      assert Snapshot(groups) == AddRow(list, row);
    } else {
      var group := new YearGroup(year);
      LinksNew(groups, groupByYear, group);
      nextByYear := nextByYear[year := group];
      nextGroups := nextGroups + [group];
      group.rows := group.rows + [row];
      assert group.rows == [row];
      forall i | 0 <= i < |groups| ensures Snapshot(nextGroups)[i] == list[i] {
        assert nextGroups[i] == groups[i] && groups[i] != group;
      }
      assert Snapshot(nextGroups) == list + [Group(year, [row])];
    }
  }

  /** The grouping loop. */
  method GroupByYear(rows: seq<Row>) returns (groups: seq<YearGroup>)
    ensures fresh(set g | g in groups)
    ensures Snapshot(groups) == GroupRows(rows)
  {
    groups := [];
    var groupByYear: map<string, YearGroup> := map[];
    var n := 0;
    while n < |rows|
      invariant 0 <= n <= |rows|
      invariant fresh(set g | g in groups)
      invariant Linked(groups, groupByYear)
      invariant Snapshot(groups) == GroupRows(rows[..n])
    {
      assert rows[..n + 1][..n] == rows[..n];
      groups, groupByYear := Place(groups, groupByYear, rows[n]);
      n := n + 1;
    }
    assert rows[..n] == rows;
  }

  // ---------------------------------------------------------------- what the groups are

  function OfYear(rows: seq<Row>, year: string): seq<Row> {
    if rows == [] then []
    else OfYear(rows[..|rows| - 1], year) + if YearOf(rows[|rows| - 1]) == year then [rows[|rows| - 1]] else []
  }

  predicate HasYear(rows: seq<Row>, year: string) {
    exists i :: 0 <= i < |rows| && YearOf(rows[i]) == year
  }

  predicate DistinctYears(groups: seq<Group>) {
    forall i, j :: 0 <= i < j < |groups| ==> groups[i].year != groups[j].year
  }

  predicate HasGroup(groups: seq<Group>, year: string) {
    exists i :: 0 <= i < |groups| && groups[i].year == year
  }

  lemma HasYearSnoc(rows: seq<Row>, year: string)
    requires rows != []
    ensures HasYear(rows, year) <==> HasYear(rows[..|rows| - 1], year) || YearOf(rows[|rows| - 1]) == year
  {
    var before := rows[..|rows| - 1];
    if HasYear(before, year) {
      var i :| 0 <= i < |before| && YearOf(before[i]) == year;
      assert rows[i] == before[i];
    }
    if HasYear(rows, year) && YearOf(rows[|rows| - 1]) != year {
      var i :| 0 <= i < |rows| && YearOf(rows[i]) == year;
      assert before[i] == rows[i];
    }
  }

  lemma AddRowGroups(groups: seq<Group>, row: Row, year: string)
    requires DistinctYears(groups)
    ensures DistinctYears(AddRow(groups, row))
    ensures HasGroup(AddRow(groups, row), year) <==> HasGroup(groups, year) || YearOf(row) == year
  {
    var next := AddRow(groups, row);
    var at := GroupAt(groups, YearOf(row));
    assert next[if at == -1 then |groups| else at].year == YearOf(row);
    if HasGroup(groups, year) {
      var i :| 0 <= i < |groups| && groups[i].year == year;
      assert next[i].year == year;
    }
    if HasGroup(next, year) && YearOf(row) != year {
      var i :| 0 <= i < |next| && next[i].year == year;
      assert groups[i].year == year;
    }
  }

  lemma {:induction false} OfYearEmpty(rows: seq<Row>, year: string)
    ensures OfYear(rows, year) == [] <==> !HasYear(rows, year)
  {
    if rows != [] {
      OfYearEmpty(rows[..|rows| - 1], year);
      HasYearSnoc(rows, year);
    }
  }

  predicate Filtered(rows: seq<Row>, group: Group) {
    group.rows == OfYear(rows, group.year) && group.rows != []
  }

  /** Sorted or not: one group a year, for exactly the years there are, each with all its rows in order. */
  lemma {:induction false} GroupsAreTheYears(rows: seq<Row>)
    ensures DistinctYears(GroupRows(rows))
    ensures forall year :: HasGroup(GroupRows(rows), year) <==> HasYear(rows, year)
    ensures forall i :: 0 <= i < |GroupRows(rows)| ==> Filtered(rows, GroupRows(rows)[i])
  {
    if rows != [] {
      var before, row := rows[..|rows| - 1], rows[|rows| - 1];
      var groups := GroupRows(before);
      GroupsAreTheYears(before);
      forall year ensures HasGroup(GroupRows(rows), year) <==> HasYear(rows, year) {
        AddRowGroups(groups, row, year);
        HasYearSnoc(rows, year);
      }
      AddRowGroups(groups, row, YearOf(row));
      var at := GroupAt(groups, YearOf(row));
      forall i | 0 <= i < |GroupRows(rows)| ensures Filtered(rows, GroupRows(rows)[i]) {
        if i < |groups| {
          assert Filtered(before, groups[i]);
        } else {
          assert !HasGroup(groups, YearOf(row));
          OfYearEmpty(before, YearOf(row));
        }
      }
    }
  }

  // ---------------------------------------------------------------- one pass keeps the order

  function Flatten(groups: seq<Group>): seq<Row> {
    if groups == [] then [] else Flatten(groups[..|groups| - 1]) + groups[|groups| - 1].rows
  }

  /** Rows of one year stand together. */
  predicate Contiguous(rows: seq<Row>) {
    forall i, j, k :: 0 <= i < j < k < |rows| && YearOf(rows[i]) == YearOf(rows[k]) ==>
      YearOf(rows[j]) == YearOf(rows[i])
  }

  lemma ContiguousPrefix(before: seq<Row>, row: Row)
    requires Contiguous(before + [row])
    ensures Contiguous(before)
    ensures HasYear(before, YearOf(row)) ==> YearOf(before[|before| - 1]) == YearOf(row)
  {
    var rows := before + [row];
    assert forall i :: 0 <= i < |before| ==> rows[i] == before[i];
    if HasYear(before, YearOf(row)) {
      var i :| 0 <= i < |before| && YearOf(before[i]) == YearOf(row);
      assert YearOf(rows[i]) == YearOf(rows[|before|]);
    }
  }

  lemma NoGroupOf(groups: seq<Group>, year: string)
    ensures GroupAt(groups, year) == -1 <==> !HasGroup(groups, year)
  {
  }

  lemma LastGroupAt(groups: seq<Group>, year: string)
    requires DistinctYears(groups) && groups != [] && groups[|groups| - 1].year == year
    ensures GroupAt(groups, year) == |groups| - 1
  {
  }

  lemma {:induction false} LastGroupIsLastYear(rows: seq<Row>)
    requires rows != [] && Contiguous(rows)
    ensures GroupRows(rows) != []
    ensures GroupRows(rows)[|GroupRows(rows)| - 1].year == YearOf(rows[|rows| - 1])
    ensures
      var groups := GroupRows(rows[..|rows| - 1]);
      var at := GroupAt(groups, YearOf(rows[|rows| - 1]));
      at == -1 || at == |groups| - 1
  {
    var before, row := rows[..|rows| - 1], rows[|rows| - 1];
    var groups, year := GroupRows(before), YearOf(row);
    assert rows == before + [row];
    ContiguousPrefix(before, row);
    assert DistinctYears(groups) && (HasGroup(groups, year) <==> HasYear(before, year)) by {
      GroupsAreTheYears(before);
    }
    NoGroupOf(groups, year);
    if HasYear(before, year) {
      LastGroupIsLastYear(before);
      LastGroupAt(groups, year);
    }
    AddRowLast(groups, row);
  }

  lemma AddRowLast(groups: seq<Group>, row: Row)
    requires GroupAt(groups, YearOf(row)) == -1 || GroupAt(groups, YearOf(row)) == |groups| - 1
    ensures AddRow(groups, row) != [] && AddRow(groups, row)[|AddRow(groups, row)| - 1].year == YearOf(row)
  {
  }

  lemma FlattenSnoc(groups: seq<Group>, last: Group)
    ensures Flatten(groups + [last]) == Flatten(groups) + last.rows
  {
    assert (groups + [last])[..|groups|] == groups;
  }

  lemma GrowingTheLast(front: seq<Group>, last: Group, row: Row)
    ensures Flatten(front + [Group(last.year, last.rows + [row])]) == Flatten(front + [last]) + [row]
  {
    FlattenSnoc(front, last);
    FlattenSnoc(front, Group(last.year, last.rows + [row]));
  }

  lemma UpdateLast(groups: seq<Group>, grown: Group)
    requires groups != []
    ensures groups == groups[..|groups| - 1] + [groups[|groups| - 1]]
    ensures groups[|groups| - 1 := grown] == groups[..|groups| - 1] + [grown]
  {
  }

  lemma AddRowFlattens(groups: seq<Group>, row: Row)
    requires GroupAt(groups, YearOf(row)) == -1 || GroupAt(groups, YearOf(row)) == |groups| - 1
    ensures Flatten(AddRow(groups, row)) == Flatten(groups) + [row]
  {
    var at := GroupAt(groups, YearOf(row));
    if at == -1 {
      FlattenSnoc(groups, Group(YearOf(row), [row]));
    } else {
      var last := groups[at];
      UpdateLast(groups, Group(last.year, last.rows + [row]));
      GrowingTheLast(groups[..at], last, row);
    }
  }

  lemma {:induction false} ContiguousFlattens(rows: seq<Row>)
    requires Contiguous(rows)
    ensures Flatten(GroupRows(rows)) == rows
  {
    if rows != [] {
      var before, row := rows[..|rows| - 1], rows[|rows| - 1];
      assert rows == before + [row];
      ContiguousPrefix(before, row);
      ContiguousFlattens(before);
      LastGroupIsLastYear(rows);
      AddRowFlattens(GroupRows(before), row);
    }
  }

  predicate OneYearEach(groups: seq<Group>) {
    forall i, k :: 0 <= i < |groups| && 0 <= k < |groups[i].rows| ==> YearOf(groups[i].rows[k]) == groups[i].year
  }

  lemma {:induction false} FlattenYears(groups: seq<Group>, k: nat)
    requires OneYearEach(groups) && k < |Flatten(groups)|
    ensures HasGroup(groups, YearOf(Flatten(groups)[k]))
  {
    var n := |groups| - 1;
    var front := Flatten(groups[..n]);
    if k < |front| {
      FlattenYears(groups[..n], k);
      var i :| 0 <= i < n && groups[..n][i].year == YearOf(front[k]);
      assert groups[i].year == YearOf(Flatten(groups)[k]);
    } else {
      assert groups[n].year == YearOf(groups[n].rows[k - |front|]);
    }
  }

  lemma {:induction false} FlattenIsContiguous(groups: seq<Group>)
    requires DistinctYears(groups) && OneYearEach(groups)
    ensures Contiguous(Flatten(groups))
  {
    if groups != [] {
      var n := |groups| - 1;
      var front, all := Flatten(groups[..n]), Flatten(groups);
      FlattenIsContiguous(groups[..n]);
      forall k | 0 <= k < |all|
        ensures if k < |front| then YearOf(all[k]) != groups[n].year && all[k] == front[k]
                else YearOf(all[k]) == groups[n].year
      {
        if k < |front| {
          FlattenYears(groups[..n], k);
        } else {
          assert all[k] == groups[n].rows[k - |front|];
        }
      }
    }
  }

  lemma {:induction false} OfYearIsOneYear(rows: seq<Row>, year: string)
    ensures forall k :: 0 <= k < |OfYear(rows, year)| ==> YearOf(OfYear(rows, year)[k]) == year
  {
    if rows != [] {
      OfYearIsOneYear(rows[..|rows| - 1], year);
    }
  }

  /** The sections, one after the other, are the rows in their order if and only if rows of one year
      stand together. */
  lemma SectionsKeepOrderIff(rows: seq<Row>)
    ensures Flatten(GroupRows(rows)) == rows <==> Contiguous(rows)
  {
    if Contiguous(rows) {
      ContiguousFlattens(rows);
    }
    var groups := GroupRows(rows);
    GroupsAreTheYears(rows);
    forall i, k | 0 <= i < |groups| && 0 <= k < |groups[i].rows|
      ensures YearOf(groups[i].rows[k]) == groups[i].year
    {
      assert Filtered(rows, groups[i]);
      OfYearIsOneYear(rows, groups[i].year);
    }
    FlattenIsContiguous(groups);
  }

  // ---------------------------------------------------------------- sorted rows

  /** One section before another: a newer year, or any year before the undated. */
  predicate Earlier(a: string, b: string) {
    a != UNDATED && (b == UNDATED || CompareText(a, b) > 0)
  }

  lemma {:induction false} CompareCut(a: string, b: string, n: nat)
    requires AtMost(a, b)
    ensures AtMost(Cut(a, n), Cut(b, n))
    decreases n
  {
    if n > 0 && a != "" && b != "" && a[0] == b[0] {
      CompareCut(a[1..], b[1..], n - 1);
      CutCons(a, n);
      CutCons(b, n);
    } else if n > 0 && a != "" && b != "" {
      CutCons(a, n);
      CutCons(b, n);
    }
  }

  function Cut(text: string, n: nat): string {
    if |text| < n then text else text[..n]
  }

  lemma CutCons(text: string, n: nat)
    requires text != "" && n > 0
    ensures Cut(text, n) != "" && Cut(text, n)[0] == text[0] && Cut(text, n)[1..] == Cut(text[1..], n - 1)
  {
  }

  /** Rows in order have years in order, and no year in digits is the undated one. */
  lemma YearsFollowRows(collate: (string, string) -> int, a: Row, b: Row)
    requires Compare(collate, a, b) <= 0
    ensures YearOf(a) == YearOf(b) || Earlier(YearOf(a), YearOf(b))
  {
    if Dated(a) {
      assert |YearOf(a)| <= 4;
      if Dated(b) {
        CompareCut(b.date.value, a.date.value, 4);
        CompareTextSigns(YearOf(a), YearOf(b));
      }
    }
  }

  lemma EarlierOrder(a: string, b: string)
    ensures !(Earlier(a, b) && Earlier(b, a)) && !Earlier(a, a)
  {
    CompareTextSigns(a, b);
    CompareTextSigns(a, a);
  }

  lemma SortedIsContiguous(collate: (string, string) -> int, rows: seq<Row>)
    requires Sorted(collate, rows)
    ensures Contiguous(rows)
  {
    forall i, j, k | 0 <= i < j < k < |rows| && YearOf(rows[i]) == YearOf(rows[k])
      ensures YearOf(rows[j]) == YearOf(rows[i])
    {
      YearsFollowRows(collate, rows[i], rows[j]);
      YearsFollowRows(collate, rows[j], rows[k]);
      EarlierOrder(YearOf(rows[i]), YearOf(rows[j]));
    }
  }

  predicate NewestSectionsFirst(groups: seq<Group>) {
    forall i, j :: 0 <= i < j < |groups| ==> Earlier(groups[i].year, groups[j].year)
  }

  lemma NewYearIsLast(collate: (string, string) -> int, before: seq<Row>, row: Row, year: string)
    requires Sorted(collate, before + [row]) && HasYear(before, year) && year != YearOf(row)
    ensures Earlier(year, YearOf(row))
  {
    var k :| 0 <= k < |before| && YearOf(before[k]) == year;
    assert (before + [row])[k] == before[k] && (before + [row])[|before|] == row;
    YearsFollowRows(collate, before[k], row);
  }

  lemma SortedPrefix(collate: (string, string) -> int, before: seq<Row>, row: Row)
    requires Sorted(collate, before + [row])
    ensures Sorted(collate, before)
  {
    assert forall i :: 0 <= i < |before| ==> (before + [row])[i] == before[i];
  }

  lemma {:induction false} SortedSections(collate: (string, string) -> int, rows: seq<Row>)
    requires Sorted(collate, rows)
    ensures NewestSectionsFirst(GroupRows(rows))
  {
    if rows != [] {
      var before, row := rows[..|rows| - 1], rows[|rows| - 1];
      var groups := GroupRows(before);
      assert rows == before + [row];
      SortedPrefix(collate, before, row);
      SortedSections(collate, before);
      GroupsAreTheYears(before);
      NoGroupOf(groups, YearOf(row));
      if GroupAt(groups, YearOf(row)) == -1 {
        forall i | 0 <= i < |groups| ensures Earlier(groups[i].year, YearOf(row)) {
          assert HasGroup(groups, groups[i].year);
          NewYearIsLast(collate, before, row, groups[i].year);
        }
      }
    }
  }

  /** What the ledger prints: for sorted rows, one section a year, newest first and the undated last, and
      the sections together are exactly the sorted rows. */
  lemma SortedRowsGroupInOrder(collate: (string, string) -> int, rows: seq<Row>)
    requires Sorted(collate, rows)
    ensures DistinctYears(GroupRows(rows)) && NewestSectionsFirst(GroupRows(rows))
    ensures Flatten(GroupRows(rows)) == rows
  {
    GroupsAreTheYears(rows);
    SortedSections(collate, rows);
    SortedIsContiguous(collate, rows);
    SectionsKeepOrderIff(rows);
  }
}
