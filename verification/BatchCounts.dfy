/** What the dashboard counts when errors are cut, spread over lines, or look like rows themselves. */
module BatchCounts {
  import opened Common
  import opened Text
  import opened Summary
  import opened Batch
  import opened BatchRoundTrip
  import opened RunLog
  import opened DashboardRun

  // ------------------------------------------------------------------ the lines of one row

  /** How many characters of the error fit on the row's own line. */
  function Room(r: WorkloadResult): nat {
    if |Line(r, DASH)| < MAX_LINE_CHARS then MAX_LINE_CHARS - |Line(r, DASH)| else 0
  }

  /** The error as it is read, with the newline behind it. */
  function ErrorText(r: WorkloadResult): (u: string)
    ensures Span(u, NotNewline) < |u|
  {
    var u := Universal(r.error + "\n");
    assert Span(u, NotNewline) < |u| by {
      UniversalKeepsEnd(r.error + "\n");
      assert u[..|u|] == u && !NotNewline(u[|u| - 1]);
    }
    u
  }

  /** The part of the error on the row's own line: up to its first newline, if there is room. */
  function FirstPart(r: WorkloadResult): string {
    if r.error == "" then "" else
    var n := Span(ErrorText(r), NotNewline);
    ErrorText(r)[..if n < Room(r) then n else Room(r)]
  }

  /** The lines that the rest of the error makes. */
  function Below(r: WorkloadResult): seq<string> {
    if r.error == "" then [] else
    var n := Span(ErrorText(r), NotNewline);
    Lines(ErrorText(r)[if n < Room(r) then n + 1 else Room(r)..])
  }

  function OwnLine(r: WorkloadResult): string {
    Line(r, if r.error == "" then "" else DASH + FirstPart(r))
  }

  lemma {:induction false} HeadPlain(r: WorkloadResult)
    requires NameFits(r)
    ensures Plain(Line(r, "")) && Plain(Line(r, DASH)) && Line(r, DASH) == Line(r, "") + DASH
    ensures !Contains(Line(r, ""), HEADING)
  {
    hide Contains, IsSpace, Line;
    var bare := r.(error := "");
    assert !Contains("", HEADING) by { ShorterThanHeading(""); }
    SameLine(r, bare);
    RowPlain(bare);
    LineAppend(r, DASH);
    PlainAppend(Line(r, ""), DASH);
  }

  /** The error is no part of a line but for what is appended. */
  lemma {:induction false} SameLine(r: WorkloadResult, bare: WorkloadResult)
    requires bare == r.(error := "")
    ensures Line(bare, "") == Line(r, "") && PrintRow(bare) == Line(r, "")
  {
  }

  lemma {:induction false} LineEndIs(s: string, n: nat)
    requires n < |s| && Span(s, NotNewline) == n
    ensures LineEnd(s) == if n < MAX_LINE_CHARS then n + 1 else MAX_LINE_CHARS
  {
  }

  lemma {:induction false} SpanBehind(head: string, u: string)
    requires All(head, NotNewline) && Span(u, NotNewline) < |u|
    ensures Span(head + u, NotNewline) == |head| + Span(u, NotNewline)
  {
    var n := Span(u, NotNewline);
    assert (head + u)[..|head| + n] == head + u[..n];
    SpanIs(head + u, |head| + n, NotNewline);
  }

  /** The first of the lines behind a plain beginning that fits. */
  lemma {:induction false} FirstOfLines(head: string, u: string)
    requires Plain(head) && |head| < MAX_LINE_CHARS && Span(u, NotNewline) < |u|
    ensures var n, room := Span(u, NotNewline), MAX_LINE_CHARS - |head|;
            Lines(head + u) == [head + u[..if n < room then n else room]]
                               + Lines(u[if n < room then n + 1 else room..])
  {
    hide Lines, LineEnd, Span;
    var n, room, s := Span(u, NotNewline), MAX_LINE_CHARS - |head|, head + u;
    SpanBehind(head, u);
    LineEndIs(s, |head| + n);
    LinesStep(s);
    if n < room {
      NewlineDropped(head, u, n);
    } else {
      assert s[..MAX_LINE_CHARS] == head + u[..room];
      assert s[MAX_LINE_CHARS..] == u[room..];
      assert u[..room] == u[..n][..room];
      LastNotNewline(head + u[..room]);
    }
  }

  lemma {:induction false} NewlineDropped(head: string, u: string, n: nat)
    requires n < |u| && u[n] == '\n'
    ensures var k := |head| + n + 1;
            DropNewline((head + u)[..k]) == head + u[..n] && (head + u)[k..] == u[n + 1..]
  {
    var k := |head| + n + 1;
    assert (head + u)[..k] == (head + u[..n]) + "\n";
  }

  lemma {:induction false} LinesStep(s: string)
    requires s != ""
    ensures Lines(s) == [DropNewline(s[..LineEnd(s)])] + Lines(s[LineEnd(s)..])
  {
  }

  /** A printed row is read as its own line and the lines below. */
  lemma {:induction false} RowLines(r: WorkloadResult)
    requires NameFits(r)
    ensures Seen(PrintRow(r) + "\n") == [OwnLine(r)] + Below(r)
  {
    hide NameFits, Line, Lines, Universal, Span, Plain;
    HeadPlain(r);
    NameLeavesRoom(r);
    if r.error == "" {
      LineSeen(Line(r, ""));
    } else {
      var head, u := Line(r, DASH), ErrorText(r);
      LineAppend(r, DASH + r.error);
      LineAppend(r, DASH + FirstPart(r));
      assert PrintRow(r) + "\n" == head + (r.error + "\n");
      UniversalPlainHead(head, r.error + "\n");
      FirstOfLines(head, u);
      assert OwnLine(r) == head + FirstPart(r);
    }
  }

  lemma {:induction false} NameLeavesRoom(r: WorkloadResult)
    requires NameFits(r)
    ensures |Line(r, DASH)| < MAX_LINE_CHARS && !Contains(r.name, HEADING) && Trim(r.name) == r.name
    ensures r.name != "" && All(r.name, NotColon)
  {
  }

  // ------------------------------------------------------------------ the rows of one result

  predicate Visible(s: string) {
    exists i :: 0 <= i < |s| && !IsSpace(s[i])
  }

  /** The row's own line is read as a row. */
  predicate Heads(r: WorkloadResult) {
    r.error == "" || (Visible(FirstPart(r)) && !Contains(FirstPart(r), HEADING))
  }

  /** What is recorded of a result: its own line with what is left of the error, unless that line is lost. */
  function HeadRow(r: WorkloadResult): seq<Row> {
    if Heads(r) then [RowOf(r).(error := TrimRight(FirstPart(r)))] else []
  }

  /** The rows that the rest of the error is taken for. */
  function RowsBelow(r: WorkloadResult): seq<Row> {
    ParseFrom(Below(r), true)
  }

  lemma {:induction false} TrimRightVisible(s: string)
    ensures TrimRight(s) != "" <==> Visible(s)
  {
    if s != "" && IsSpace(s[|s| - 1]) {
      var t := s[..|s| - 1];
      TrimRightVisible(t);
      assert Visible(s) <==> Visible(t) by {
        assert forall i | 0 <= i < |t| :: t[i] == s[i];
      }
    }
  }

  lemma {:induction false} TrimRightOfRest(head: string, s: string)
    ensures TrimRight(head + s) == if TrimRight(s) == "" then TrimRight(head) else head + TrimRight(s)
  {
    if s == "" {
      assert head + s == head;
    } else if IsSpace(s[|s| - 1]) {
      assert (head + s)[..|head + s| - 1] == head + s[..|s| - 1];
      TrimRightOfRest(head, s[..|s| - 1]);
    }
  }

  lemma {:induction false} BareDash()
    ensures TrimRight(DASH) == " -" && ScanError(" -").NoMatch? && IsSpace(DASH[0])
  {
    assert DASH[..2] == " -" && IsSpace(DASH[2]) && !IsSpace(DASH[1]);
  }

  lemma {:induction false} ErrorScans(t: string)
    requires t != "" && All(t, NotNewline)
    ensures ScanError(DASH + t) == Match(t, "")
  {
  }

  /** The row read from a printed line that ends in the error text `f`, visible or not. */
  lemma {:induction false} CutRow(r: WorkloadResult, f: string)
    requires NameFits(r) && All(f, NotNewline)
    ensures ParseRow(Line(r, DASH + f)) ==
            if Visible(f) then Some(RowOf(r).(error := TrimRight(f))) else None
  {
    hide NameFits, Line, ScanRow, IsSpace, Contains, TrimRight, ScanError, Trim, Visible;
    NameLeavesRoom(r);
    var t := TrimRight(f);
    TrimLine(r, DASH + f);
    TrimRightOfRest(DASH, f);
    TrimRightVisible(f);
    BareDash();
    if Visible(f) {
      ErrorScans(t);
      ScanLineOf(r, DASH + t);
    } else {
      ScanLineOf(r, " -");
    }
  }

  lemma {:induction false} HeadingOnOwnLine(r: WorkloadResult, f: string)
    requires NameFits(r)
    ensures Contains(Line(r, DASH + f), HEADING) <==> Contains(f, HEADING)
  {
    hide Contains, Line, IsSpace, Numbers;
    var line := Line(r, DASH + f);
    LineAppend(r, DASH + f);
    if Contains(f, HEADING) {
      assert line[|line| - |f|..|line|] == f;
      ContainsInPart(line, |line| - |f|, |line|, HEADING);
    }
    if Contains(line, HEADING) {
      var middle := LineParts(r, DASH + f);
      assert All(Status(r), Fixed);
      HeadingInLine(Status(r), r.name, middle, DASH + f);
      if f == "" {
        ShorterThanHeading(DASH + f);
      } else {
        HeadingInErrorPart(f);
      }
    }
  }

  lemma {:induction false} FirstPartIsOneLine(r: WorkloadResult)
    ensures All(FirstPart(r), NotNewline)
  {
    hide Universal;
    if r.error != "" {
      var u := ErrorText(r);
      var n := Span(u, NotNewline);
      assert All(u[..n], NotNewline);
      assert FirstPart(r) == u[..n][..|FirstPart(r)|];
    }
  }

  lemma {:induction false} OwnLineRow(r: WorkloadResult)
    requires NameFits(r)
    ensures ParseFrom([OwnLine(r)], true) == HeadRow(r)
  {
    hide NameFits, Line, ParseRow, Contains, FirstPart, Visible;
    var line, f := OwnLine(r), FirstPart(r);
    FirstPartIsOneLine(r);
    if r.error == "" {
      assert f == "" by { EmptyFirstPart(r); }
      EmptyErrorRow(r);
    } else {
      CutRow(r, f);
      HeadingOnOwnLine(r, f);
    }
    SingleLine(line);
  }

  lemma {:induction false} SingleLine(line: string)
    ensures ParseFrom([line], true) == if Contains(line, HEADING) then [] else RowsIn(line)
  {
    hide Contains, RowsIn;
    assert [line][1..] == [];
  }

  lemma {:induction false} EmptyFirstPart(r: WorkloadResult)
    requires r.error == ""
    ensures FirstPart(r) == "" && TrimRight("") == ""
  {
  }

  lemma {:induction false} EmptyErrorRow(r: WorkloadResult)
    requires NameFits(r) && r.error == ""
    ensures !Contains(Line(r, ""), HEADING) && ParseRow(Line(r, "")) == Some(RowOf(r))
    ensures RowOf(r).(error := TrimRight("")) == RowOf(r)
  {
    hide Line, ParseRow, Contains, IsSpace;
    HeadPlain(r);
    RowRoundTrip(r) by { assert Clean(r) by { NameIsClean(r); } }
  }

  lemma {:induction false} NameIsClean(r: WorkloadResult)
    requires NameFits(r) && r.error == ""
    ensures Clean(r)
  {
  }

  /** Whatever the error is: a result's rows are that of its own line, cut as it may be, and those below. */
  lemma {:induction false} OwnIs(r: WorkloadResult)
    requires NameFits(r)
    ensures Own(r) == HeadRow(r) + RowsBelow(r)
  {
    hide NameFits, ParseFrom, HeadRow, Below, OwnLine, Seen;
    RowLines(r);
    OwnLineRow(r);
    ParseInSummary([OwnLine(r)], Below(r));
  }

  // ------------------------------------------------------------------ when a result is counted as it was

  /** Equal apart from the error text. */
  predicate Alike(a: Row, b: Row) {
    a == b.(error := a.error)
  }

  /** The line reads as no row. */
  predicate Rowless(line: string) {
    Contains(line, HEADING) || ParseRow(line).None?
  }

  /** The result's own line is a row, and none of the lines below is. */
  predicate Counted(r: WorkloadResult) {
    Heads(r) && forall i | 0 <= i < |Below(r)| :: Rowless(Below(r)[i])
  }

  /** The result's own line is lost, and the rest of its error reads as that row instead. */
  predicate Repeated(r: WorkloadResult) {
    !Heads(r) && |RowsBelow(r)| == 1 && Alike(RowsBelow(r)[0], RowOf(r))
  }

  lemma {:induction false} NoRowsIff(lines: seq<string>)
    ensures ParseFrom(lines, true) == [] <==> forall i | 0 <= i < |lines| :: Rowless(lines[i])
  {
    hide Contains, ParseRow;
    if lines != [] {
      var rest := lines[1..];
      NoRowsIff(rest);
      assert forall i | 0 < i < |lines| :: lines[i] == rest[i - 1];
      assert forall i | 0 <= i < |rest| :: rest[i] == lines[i + 1];
    }
  }

  lemma {:induction false} CountedRow(r: WorkloadResult)
    requires NameFits(r) && Counted(r)
    ensures Own(r) == [RowOf(r).(error := TrimRight(FirstPart(r)))]
  {
    hide NameFits, Heads, Below, Rowless, ParseFrom, Own, FirstPart;
    OwnIs(r);
    NoRowsIff(Below(r));
  }

  /**
    * A result is recorded as one row with its name, code, time and verdict iff it is counted, or its error
    * happens to repeat a row that is lost itself.
    */
  lemma {:induction false} CountedIff(r: WorkloadResult)
    requires NameFits(r)
    ensures |Own(r)| == 1 && Alike(Own(r)[0], RowOf(r)) <==> Counted(r) || Repeated(r)
  {
    hide NameFits, Heads, Below, Rowless, ParseFrom, Own, FirstPart;
    OwnIs(r);
    NoRowsIff(Below(r));
  }

  // ------------------------------------------------------------------ errors without a row's mark

  lemma {:induction false} LineIsPart(s: string, line: string) returns (a: nat, b: nat)
    requires line in Lines(s)
    ensures a <= b <= |s| && s[a..b] == line
    decreases |s|
  {
    hide LineEnd;
    var n := LineEnd(s);
    if line == DropNewline(s[..n]) {
      a, b := 0, |line|;
    } else {
      a, b := LineIsPart(s[n..], line);
      assert s[a + n..b + n] == s[n..][a..b];
      a, b := a + n, b + n;
    }
  }

  lemma {:induction false} PrefixOfUniversal(s: string, p: string)
    requires p <= Universal(s) && All(p, NotNewline)
    ensures p <= s
  {
    if p != "" {
      assert p[0] == Universal(s)[0] != '\n';
      assert p[1..] <= Universal(s)[1..];
      PrefixOfUniversal(s[1..], p[1..]);
    }
  }

  lemma {:induction false} UniversalAddsNothing(s: string, p: string)
    requires Contains(Universal(s), p) && p != "" && All(p, NotNewline)
    ensures Contains(s, p)
    decreases |s|
  {
    var u := Universal(s);
    var i :| 0 <= i <= |u| - |p| && u[i..][..|p|] == p;
    if i == 0 {
      assert p <= u;
      PrefixOfUniversal(s, p);
      assert s[0..][..|p|] == p;
    } else {
      var k := if s[0] == '\r' && |s| > 1 && s[1] == '\n' then 2 else 1;
      assert u[1..] == Universal(s[k..]);
      assert u[1..][i - 1..] == u[i..];
      UniversalAddsNothing(s[k..], p);
      assert s[k..|s|] == s[k..];
      ContainsInPart(s, k, |s|, p);
    }
  }

  lemma {:induction false} NameHasMark(s: string)
    requires ScanName(s).Match?
    ensures Contains(s, RC)
  {
    hide Span;
    var n := Span(s, NotColon);
    assert s[n..][..|RC|] == RC;
  }

  lemma {:induction false} ContainsInEnd(s: string, end: string, pattern: string)
    requires Suffix(end, s) && Contains(end, pattern)
    ensures Contains(s, pattern)
  {
    hide Contains;
    assert s[|s| - |end|..|s|] == end;
    ContainsInPart(s, |s| - |end|, |s|, pattern);
  }

  /** A line that reads as a row has the mark in front of its code. */
  lemma {:induction false} RowHasMark(line: string)
    requires ParseRow(line).Some?
    ensures Contains(line, RC)
  {
    hide ScanStatus, ScanName, ScanFigures, Trim, Contains, IsSpace, Suffix;
    var s := Trim(line);
    var rest := ScanStatus(s).rest;
    NameHasMark(rest);
    ContainsInEnd(s, rest, RC);
    var k := TrimIsPart(line);
    ContainsInPart(line, k, k + |s|, RC);
  }

  lemma {:induction false} MarkIsInError(error: string)
    requires Contains(error + "\n", RC)
    ensures Contains(error, RC)
  {
    var s := error + "\n";
    var i :| 0 <= i <= |s| - |RC| && s[i..][..|RC|] == RC;
    assert s[i..][..|RC|][|RC| - 1] == s[i + |RC| - 1] && RC[|RC| - 1] == '=';
    assert error[i..][..|RC|] == RC;
  }

  /** An error of any length and any number of lines without the text ": rc=" is counted if its row is read at all. */
  lemma {:induction false} UnmarkedIsCounted(r: WorkloadResult)
    requires Heads(r) && !Contains(r.error, RC)
    ensures Counted(r)
  {
    hide Heads, Contains, ParseRow, Lines, Universal, Span, Room;
    forall i | 0 <= i < |Below(r)| ensures Rowless(Below(r)[i]) {
      var line := Below(r)[i];
      if ParseRow(line).Some? {
        RowHasMark(line);
        MarkBelow(r, line);
      }
    }
  }

  lemma {:induction false} MarkBelow(r: WorkloadResult, line: string)
    requires line in Below(r) && Contains(line, RC)
    ensures Contains(r.error, RC)
  {
    hide Contains, Lines, Universal, Span, Room;
    var u := ErrorText(r);
    var n := Span(u, NotNewline);
    var k := if n < Room(r) then n + 1 else Room(r);
    var a, b := LineIsPart(u[k..], line);
    assert u[k + a..k + b] == line;
    ContainsInPart(u, k + a, k + b, RC);
    UniversalAddsNothing(r.error + "\n", RC);
    MarkIsInError(r.error);
  }

  /** A result that survives whole is counted. */
  lemma {:induction false} SurvivorIsCounted(r: WorkloadResult)
    requires NameFits(r) && Survives(r)
    ensures Counted(r)
  {
    hide Contains, IsSpace, ParseRow, Line, Lines, Rowless;
    if r.error != "" {
      var s, n := r.error + "\n", |r.error|;
      UniversalId(s);
      assert s[..n] == r.error;
      SpanIs(s, n, NotNewline);
      LineAppend(r, DASH);
      LineAppend(r, DASH + r.error);
      assert n <= Room(r);
      assert FirstPart(r) == r.error && !IsSpace(FirstPart(r)[n - 1]);
      var rest := s[if n < Room(r) then n + 1 else Room(r)..];
      assert rest == if n < Room(r) then "" else "\n";
      assert Below(r) == Lines(rest);
      NothingBelow();
    }
  }

  lemma {:induction false} NothingBelow()
    ensures Lines("") == [] && Lines("\n") == [""] && Rowless("")
  {
    NewlineAlone();
    EmptyLine();
  }

  // ------------------------------------------------------------------ the counts of a table

  predicate AllCounted(results: seq<WorkloadResult>) {
    forall i | 0 <= i < |results| :: Counted(results[i])
  }

  predicate Headless(r: WorkloadResult) {
    !Heads(r)
  }

  /** The rows found in errors. */
  function Stray(results: seq<WorkloadResult>): seq<Row> {
    if results == [] then [] else RowsBelow(results[0]) + Stray(results[1..])
  }

  function Plus(a: Counts, b: Counts): Counts {
    Counts(a.passed + b.passed, a.failed + b.failed, a.total + b.total)
  }

  lemma {:induction false} TallyAppend(a: seq<Row>, b: seq<Row>)
    ensures Tally(a + b) == Plus(Tally(a), Tally(b))
  {
    FilterAppend(a, b, RowOk);
  }

  lemma {:induction false} TallyOfOne(row: Row)
    ensures Tally([row]) == if row.ok then Counts(1, 0, 1) else Counts(0, 1, 1)
    ensures Tally([]) == Counts(0, 0, 0)
  {
    assert [row][1..] == [];
  }

  lemma {:induction false} RowsOfOne(r: WorkloadResult, results: seq<WorkloadResult>)
    requires results != [] && r == results[0]
    ensures RowsOf(results) == [RowOf(r)] + RowsOf(results[1..])
    ensures RowsOf(Filter(results, Headless)) ==
            (if Headless(r) then [RowOf(r)] else []) + RowsOf(Filter(results[1..], Headless))
  {
    var lost := Filter(results[1..], Headless);
    if Headless(r) {
      assert ([r] + lost)[1..] == lost;
    } else {
      assert [] + lost == lost;
    }
  }

  /** What is recorded and what was lost make up the results and what was found in errors. */
  lemma {:induction false} NothingElseIsCounted(results: seq<WorkloadResult>)
    requires AllFit(results)
    ensures Plus(Tally(OwnRows(results)), Tally(RowsOf(Filter(results, Headless)))) ==
            Plus(Tally(RowsOf(results)), Tally(Stray(results)))
  {
    hide NameFits, Heads, Own, RowsBelow, RowOf, Tally;
    if results == [] {
      assert Filter(results, Headless) == [];
    } else {
      var r, rest := results[0], results[1..];
      NothingElseIsCounted(rest);
      RowsOfOne(r, results);
      TallyAppend(Own(r), OwnRows(rest));
      TallyAppend(if Headless(r) then [RowOf(r)] else [], RowsOf(Filter(rest, Headless)));
      TallyAppend([RowOf(r)], RowsOf(rest));
      TallyAppend(RowsBelow(r), Stray(rest));
      OwnTally(r);
    }
  }

  lemma {:induction false} OwnTally(r: WorkloadResult)
    requires NameFits(r)
    ensures Plus(Tally(Own(r)), Tally(if Headless(r) then [RowOf(r)] else [])) ==
            Plus(Tally([RowOf(r)]), Tally(RowsBelow(r)))
  {
    hide NameFits, Heads, Own, RowsBelow, Tally, FirstPart, TrimRight;
    OwnIs(r);
    TallyAppend(HeadRow(r), RowsBelow(r));
    var head := RowOf(r).(error := TrimRight(FirstPart(r)));
    TallyOfOne(head);
    TallyOfOne(RowOf(r));
  }

  /** The recorded counts are those of the results iff lost rows and rows found in errors have the same counts. */
  lemma {:induction false} CountsIff(results: seq<WorkloadResult>)
    requires AllFit(results)
    ensures Tally(OwnRows(results)) == Tally(RowsOf(results)) <==>
            Tally(RowsOf(Filter(results, Headless))) == Tally(Stray(results))
  {
    hide AllFit, OwnRows, RowsOf, Stray, Tally, Filter, Headless;
    NothingElseIsCounted(results);
  }

  /** A table of counted results is recorded row by row, whatever is left of the errors. */
  lemma {:induction false} CountedTable(results: seq<WorkloadResult>)
    requires AllFit(results) && AllCounted(results)
    ensures |OwnRows(results)| == |results|
    ensures forall i | 0 <= i < |results| :: Alike(OwnRows(results)[i], RowOf(results[i]))
    ensures Tally(OwnRows(results)) == Tally(RowsOf(results))
  {
    hide NameFits, Counted, Own, Tally, RowOf;
    if results != [] {
      var r, rest := results[0], results[1..];
      assert forall i | 0 <= i < |rest| :: rest[i] == results[i + 1];
      CountedTable(rest);
      CountedRow(r);
      var row := Own(r)[0];
      assert OwnRows(results) == [row] + OwnRows(rest);
      TallyAppend([row], OwnRows(rest));
      TallyAppend([RowOf(r)], RowsOf(rest));
      CountedAlike(r);
    }
  }

  lemma {:induction false} CountedAlike(r: WorkloadResult)
    requires NameFits(r) && Counted(r)
    ensures |Own(r)| == 1 && Alike(Own(r)[0], RowOf(r)) && Tally(Own(r)) == Tally([RowOf(r)])
  {
    hide NameFits, Counted, Own, Tally, FirstPart;
    CountedRow(r);
    TallyOfOne(Own(r)[0]);
    TallyOfOne(RowOf(r));
  }

  // ------------------------------------------------------------------ errors that are miscounted

  /** An error whose second line is the printed row of `t` adds the row of `t`, whatever `t` is. */
  lemma {:induction false} SmuggledRow(r: WorkloadResult, first: string, t: WorkloadResult)
    requires NameFits(r) && NameFits(t) && Survives(t)
    requires r.error == first + ("\n" + PrintRow(t)) && Plain(first) && |first| < Room(r)
    ensures FirstPart(r) == first && RowsBelow(r) == [RowOf(t)]
  {
    hide NameFits, Survives, PrintRow, ParseFrom, Contains, Lines, Universal, Room;
    assert r.error != "";
    var rest := PrintRow(t) + "\n";
    assert r.error + "\n" == (first + "\n") + rest;
    UniversalPlainHead(first, "\n" + rest);
    assert first + ("\n" + rest) == (first + "\n") + rest;
    UniversalOfNewline(rest);
    var u := ErrorText(r);
    assert u == first + ("\n" + Universal(rest));
    assert u[..|first|] == first;
    SpanIs(u, |first|, NotNewline);
    assert u[|first| + 1..] == Universal(rest);
    OwnOfSurvivor(t);
  }

  lemma {:induction false} UniversalOfNewline(rest: string)
    ensures Universal("\n" + rest) == "\n" + Universal(rest)
  {
    assert ("\n" + rest)[1..] == rest;
  }

  const PASSED := WorkloadResult("http", 0, 15, "")

  lemma {:induction false} PassedFits()
    ensures NameFits(PASSED) && Survives(PASSED)
  {
    hide IsSpace, PrintNat;
    assert !IsSpace('h') && !IsSpace('p') by { LettersAreVisible(); }
    assert !Contains("http", HEADING) by { ShorterThanHeading("http"); }
    assert PrintNat(1) == "1" && PrintNat(0) == "0" by { OneDigit(1); OneDigit(0); }
  }

  lemma {:induction false} FailedHasRoom(error: string)
    ensures Room(Failed(error)) > 1
  {
    hide IsSpace, PrintNat;
    assert PrintNat(1) == "1" by { OneDigit(1); }
    assert PrintInt(1) == "1";
  }

  /** A failed workload that is recorded as a failed and a passed one. */
  lemma {:induction false} AddedRow()
    ensures var r := Failed("x" + ("\n" + PrintRow(PASSED)));
            Own(r) == [RowOf(r).(error := "x"), RowOf(PASSED)]
  {
    hide NameFits, Survives, PrintRow, Room, Own, RowsBelow, Contains;
    var r := Failed("x" + ("\n" + PrintRow(PASSED)));
    FailedFits(r.error);
    PassedFits();
    FailedHasRoom(r.error);
    SmuggledRow(r, "x", PASSED);
    OwnIs(r);
    ShorterThanHeading("x");
    assert !IsSpace("x"[0]);
    assert TrimRight("x") == "x";
  }

  /** A failed workload of which no row is recorded: its error starts with an empty line. */
  lemma {:induction false} LostRow()
    ensures Own(Failed("\nx")) == []
  {
    hide NameFits, Room, Own, Contains, RowsIn, Universal, Lines;
    var r := Failed("\nx");
    FailedFits(r.error);
    FailedHasRoom(r.error);
    OwnIs(r);
    assert r.error + "\n" == "\nx\n" == "\n" + "x\n";
    UniversalOfNewline("x\n");
    UniversalId("x\n");
    var u := ErrorText(r);
    assert u == "\nx\n" && u[..0] == "";
    SpanIs(u, 0, NotNewline);
    assert u[1..] == "x\n" == "x" + "\n";
    LineSeen("x");
    assert !IsSpace('x');
    NoRowInLine("x");
    SingleLine("x");
  }

  /** A failed workload whose error reads as its own lost row. */
  lemma {:induction false} RepeatedRow()
    ensures var r := Failed("" + ("\n" + PrintRow(Failed("")))); !Heads(r) && Own(r) == [RowOf(r).(error := "")]
  {
    hide NameFits, PrintRow, Room, Own, RowsBelow, Contains;
    var r := Failed("" + ("\n" + PrintRow(Failed(""))));
    FailedFits(r.error);
    FailedFits("");
    FailedHasRoom(r.error);
    assert Survives(Failed("")) by { EmptySurvives(); }
    SmuggledRow(r, "", Failed(""));
    OwnIs(r);
  }

  lemma {:induction false} EmptySurvives()
    ensures Survives(Failed(""))
  {
    FailedFits("");
    LineAppend(Failed(""), DASH);
  }

  lemma {:induction false} FailedTally(r: WorkloadResult, row: Row)
    requires r.returncode != 0 && row.ok
    ensures Tally(RowsOf([r])) == Counts(0, 1, 1)
    ensures Own(r) == [RowOf(r).(error := "x"), row] ==> Tally(OwnRows([r])) == Counts(1, 1, 2)
    ensures Own(r) == [] ==> Tally(OwnRows([r])) == Counts(0, 0, 0)
  {
    hide Own, Tally, OwnRows, RowsOf;
    var cut := RowOf(r).(error := "x");
    OnlyRow(r);
    TallyOfOne(RowOf(r));
    TallyOfOne(cut);
    TallyOfOne(row);
    TallyAppend([cut], [row]);
    assert [cut] + [row] == [cut, row];
  }

  /** After any heading-free output, the counts of two suites of one failed workload are wrong. */
  lemma {:induction false} MiscountedSuites(before: string)
    requires !HasHeading(Seen(before + "\n"))
    ensures var added, lost := [Failed("x" + ("\n" + PrintRow(PASSED)))], [Failed("\nx")];
            && Tally(RowsOf(added)) == Tally(RowsOf(lost)) == Counts(0, 1, 1)
            && Tally(ParseFrom(Seen(Output(before, added, 15, true)), false)) == Counts(1, 1, 2)
            && Tally(ParseFrom(Seen(Output(before, lost, 15, true)), false)) == Counts(0, 0, 0)
  {
    hide HasHeading, Output, ParseFrom, Seen, DoneTitle, PrintRow, Tally, OwnRows, RowsOf, Own;
    var a, b := Failed("x" + ("\n" + PrintRow(PASSED))), Failed("\nx");
    ShortTitle();
    TableIsOwnRows(before, [a], 15, true);
    TableIsOwnRows(before, [b], 15, true);
    AddedRow();
    LostRow();
    FailedTally(a, RowOf(PASSED));
    FailedTally(b, RowOf(PASSED));
  }

  lemma {:induction false} OnlyRow(r: WorkloadResult)
    ensures OwnRows([r]) == Own(r) && RowsOf([r]) == [RowOf(r)]
  {
    hide Own, RowOf;
    assert [r][1..] == [];
    assert Own(r) + [] == Own(r);
  }
}
