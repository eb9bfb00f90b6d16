/** Which results survive the way from the driver's table into the dashboard's batch. */
module BatchRoundTrip {
  import opened Common
  import opened Text
  import opened Summary
  import opened Batch

  /** The lines the dashboard makes of a text that a child process printed. */
  function Seen(text: string): seq<string> {
    Lines(Universal(text))
  }

  predicate EndsLine(s: string) {
    s != "" && s[|s| - 1] == '\n'
  }

  // ------------------------------------------------------------------ lines of concatenated output

  lemma {:induction false} UniversalAppend(a: string, b: string)
    requires a == "" || a[|a| - 1] != '\r'
    ensures Universal(a + b) == Universal(a) + Universal(b)
    decreases |a|
  {
    var s := a + b;
    if a == "" {
      assert s == b;
    } else if a[0] == '\r' && a[1] == '\n' {
      assert s[0] == a[0] && s[1] == a[1] && s[2..] == a[2..] + b;
      UniversalAppend(a[2..], b);
    } else {
      assert s[0] == a[0] && s[1..] == a[1..] + b;
      assert a[0] == '\r' ==> s[1] == a[1];
      UniversalAppend(a[1..], b);
    }
  }

  lemma {:induction false} UniversalKeepsEnd(a: string)
    requires EndsLine(a)
    ensures EndsLine(Universal(a))
  {
    assert a == a[..|a| - 1] + "\n";
    if |a| > 1 {
      if a[|a| - 2] == '\r' {
        assert a == a[..|a| - 2] + "\r\n";
        UniversalCrLf(a[..|a| - 2]);
      } else {
        UniversalAppend(a[..|a| - 1], "\n");
      }
    }
  }

  lemma {:induction false} UniversalCrLf(a: string)
    ensures EndsLine(Universal(a + "\r\n"))
    decreases |a|
  {
    var s := a + "\r\n";
    if a == "" {
      assert s == "\r\n";
    } else {
      var n := if a[0] == '\r' && |a| > 1 && a[1] == '\n' then 2 else 1;
      assert s[0] == a[0] && (|a| > 1 ==> s[1] == a[1]) && (|a| == 1 ==> s[1] == '\r');
      assert s[n..] == a[n..] + "\r\n";
      UniversalCrLf(a[n..]);
    }
  }

  lemma {:induction false} UniversalId(s: string)
    requires All(s, NotReturn)
    ensures Universal(s) == s
  {
    if s != "" {
      UniversalId(s[1..]);
    }
  }

  /** How a program may end a line. */
  datatype Terminator = Lf | CrLf | Cr

  function TerminatorText(t: Terminator): string {
    match t case Lf => "\n" case CrLf => "\r\n" case Cr => "\r"
  }

  datatype Printed = Printed(line: string, end: Terminator)

  function PrintedText(ps: seq<Printed>): string {
    if ps == [] then "" else ps[0].line + (TerminatorText(ps[0].end) + PrintedText(ps[1..]))
  }

  /** Lines without terminators in them; a bare return is not followed by a newline, with which it would make one. */
  predicate Distinct(ps: seq<Printed>) {
    ps == [] ||
    (Plain(ps[0].line) && (ps[0].end.Cr? && |ps| > 1 ==> ps[1].line != "" || !ps[1].end.Lf?) && Distinct(ps[1..]))
  }

  function TheLines(ps: seq<Printed>): seq<string> {
    if ps == [] then [] else [ps[0].line] + TheLines(ps[1..])
  }

  lemma {:induction false} UniversalTerminator(t: Terminator, rest: string)
    requires t.Cr? ==> rest == "" || rest[0] != '\n'
    ensures Universal(TerminatorText(t) + rest) == "\n" + Universal(rest)
  {
    var s := TerminatorText(t) + rest;
    match t
    case Lf => assert s[1..] == rest;
    case CrLf => assert s[2..] == rest;
    case Cr => assert s[1..] == rest;
  }

  lemma {:induction false} PrintedStart(ps: seq<Printed>)
    requires Distinct(ps) && ps != [] && (ps[0].line != "" || !ps[0].end.Lf?)
    ensures PrintedText(ps) != "" && PrintedText(ps)[0] != '\n'
  {
    var p := ps[0];
    if p.line != "" {
      assert PrintedText(ps)[0] == p.line[0];
    } else {
      assert PrintedText(ps) == TerminatorText(p.end) + PrintedText(ps[1..]);
    }
  }

  /** Whatever terminators a program uses, its lines are read as such. */
  lemma {:induction false} UniversalOfLines(ps: seq<Printed>)
    requires Distinct(ps)
    ensures Universal(PrintedText(ps)) == Print(TheLines(ps))
  {
    hide Universal, Plain;
    if ps == [] {
      assert Universal("") == "" by { UniversalId(""); }
    } else {
      var p, rest := ps[0], PrintedText(ps[1..]);
      UniversalOfLines(ps[1..]);
      if p.end.Cr? && |ps| > 1 {
        PrintedStart(ps[1..]);
      }
      UniversalTerminator(p.end, rest);
      UniversalPlainHead(p.line, TerminatorText(p.end) + rest);
      assert TheLines(ps)[1..] == TheLines(ps[1..]);
      assert p.line + ("\n" + Print(TheLines(ps[1..]))) == (p.line + "\n") + Print(TheLines(ps[1..]));
    }
  }

  lemma {:induction false} UniversalPlainHead(head: string, rest: string)
    requires Plain(head)
    ensures Universal(head + rest) == head + Universal(rest)
  {
    UniversalAppend(head, rest);
    UniversalId(head);
  }

  lemma {:induction false} LineEndAppend(a: string, b: string)
    requires EndsLine(a)
    ensures LineEnd(a + b) == LineEnd(a)
  {
    var n := Span(a, NotNewline);
    assert a[..|a|] == a;
    assert (a + b)[..n] == a[..n];
    SpanIs(a + b, n, NotNewline);
  }

  lemma {:induction false} LinesAppend(a: string, b: string)
    requires EndsLine(a)
    ensures Lines(a + b) == Lines(a) + Lines(b)
    decreases |a|
  {
    hide LineEnd;
    LineEndAppend(a, b);
    var n := LineEnd(a);
    assert (a + b)[..n] == a[..n] && (a + b)[n..] == a[n..] + b;
    if n == |a| {
      assert a[n..] == "" && a[n..] + b == b;
      assert Lines(a) == [DropNewline(a[..n])] + Lines(a[n..]);
    } else {
      assert a[n..][|a| - n - 1] == a[|a| - 1];
      LinesAppend(a[n..], b);
    }
  }

  lemma {:induction false} SeenAppend(a: string, b: string)
    requires EndsLine(a)
    ensures Seen(a + b) == Seen(a) + Seen(b)
  {
    hide Universal, Lines;
    UniversalAppend(a, b);
    UniversalKeepsEnd(a);
    LinesAppend(Universal(a), Universal(b));
  }

  predicate Plain(line: string) {
    All(line, NotNewline) && All(line, NotReturn)
  }

  /** A line that fits is seen as it is; one that fills the reader's bound leaves an empty line behind it. */
  lemma {:induction false} LineSeen(line: string)
    requires Plain(line) && |line| <= MAX_LINE_CHARS
    ensures Seen(line + "\n") == if |line| < MAX_LINE_CHARS then [line] else [line, ""]
  {
    var s := line + "\n";
    UniversalId(s);
    assert s[..|line|] == line;
    SpanIs(s, |line|, NotNewline);
    var n := LineEnd(s);
    assert Lines(s) == [DropNewline(s[..n])] + Lines(s[n..]);
    if |line| < MAX_LINE_CHARS {
      assert s[..n] == s && s[n..] == "" && DropNewline(s) == line;
    } else {
      assert s[n..] == "\n";
      NewlineAlone();
      LastNotNewline(line);
    }
  }

  lemma {:induction false} LastNotNewline(line: string)
    requires All(line, NotNewline)
    ensures DropNewline(line) == line
  {
  }

  lemma {:induction false} NewlineAlone()
    ensures Lines("\n") == [""]
  {
  }

  /** What every line has in common: no terminators, and no more than the text. */
  lemma {:induction false} LineFacts(s: string, line: string)
    requires line in Lines(s) && All(s, NotReturn)
    ensures Plain(line) && |line| <= |s|
    decreases |s|
  {
    hide LineEnd;
    var n := LineEnd(s);
    if line == DropNewline(s[..n]) {
      FirstLineFacts(s, n);
    } else {
      assert All(s[n..], NotReturn);
      LineFacts(s[n..], line);
    }
  }

  lemma {:induction false} FirstLineFacts(s: string, n: nat)
    requires 0 < n <= |s| && All(s[..n - 1], NotNewline) && All(s, NotReturn)
    ensures Plain(DropNewline(s[..n])) && |DropNewline(s[..n])| <= |s|
  {
  }

  // ------------------------------------------------------------------ one row of the table

  /** The rows the dashboard reads from the output for one result. */
  function Own(r: WorkloadResult): seq<Row> {
    ParseFrom(Seen(PrintRow(r) + "\n"), true)
  }

  /** A name like those of the suite: one stripped word group without colon, and room for an error behind it. */
  predicate NameFits(r: WorkloadResult) {
    && r.name != "" && !IsSpace(r.name[0]) && !IsSpace(r.name[|r.name| - 1])
    && All(r.name, NotColon) && Plain(r.name) && !Contains(r.name, HEADING)
    && |Line(r, DASH)| < MAX_LINE_CHARS
  }

  /** An error that reaches the batch unchanged: one line, no trailing space, not the heading, not too long. */
  predicate Survives(r: WorkloadResult) {
    && (r.error != "" ==>
          Plain(r.error) && !IsSpace(r.error[|r.error| - 1]) && !Contains(r.error, HEADING))
    && |PrintRow(r)| <= MAX_LINE_CHARS
  }

  /** The characters of the printed parts around name and error. */
  predicate Fixed(c: char) {
    c != '\n' && c != '\r' && c != 'W'
  }

  lemma {:induction false} AllAppend(a: string, b: string, p: char -> bool)
    requires All(a, p) && All(b, p)
    ensures All(a + b, p)
  {
  }

  lemma {:induction false} DigitsFixed(n: nat)
    ensures All(PrintNat(n), Fixed)
  {
  }

  lemma {:induction false} NumbersFixed(r: WorkloadResult)
    ensures All(RC + Numbers(r, ""), Fixed)
  {
    hide IsSpace, PrintNat;
    var note := DETECTION + (NOT_EVALUATED + "");
    DigitsFixed(if r.returncode < 0 then -r.returncode else r.returncode);
    DigitsFixed(r.tenths / 10);
    AllAppend([Digit(r.tenths % 10)], "s" + note, Fixed);
    AllAppend(".", [Digit(r.tenths % 10)] + ("s" + note), Fixed);
    AllAppend(PrintNat(r.tenths / 10), "." + ([Digit(r.tenths % 10)] + ("s" + note)), Fixed);
    AllAppend(ELAPSED, Elapsed(r.tenths, note), Fixed);
    AllAppend(PrintInt(r.returncode), ELAPSED + Elapsed(r.tenths, note), Fixed);
    AllAppend(RC, Numbers(r, ""), Fixed);
  }

  /** A printed line is the name between two parts that are plain and free of the heading's first letter. */
  lemma {:induction false} LineParts(r: WorkloadResult, rest: string) returns (middle: string)
    ensures Line(r, rest) == Status(r) + (r.name + (middle + rest))
    ensures middle != "" && middle[0] == ':' && All(middle, Fixed)
  {
    hide IsSpace;
    NumbersAppend(r, rest);
    middle := RC + Numbers(r, "");
    assert middle + rest == RC + Numbers(r, rest);
    NumbersFixed(r);
  }

  /** The heading cannot start in the fixed parts of a line and cannot reach beyond the colon. */
  lemma {:induction false} HeadingInLine(status: string, name: string, middle: string, rest: string)
    requires All(status, Fixed) && All(middle, Fixed) && middle != "" && middle[0] == ':'
    requires Contains(status + (name + (middle + rest)), HEADING)
    ensures Contains(name, HEADING) || Contains(rest, HEADING)
  {
    var s := status + (name + (middle + rest));
    var i :| 0 <= i <= |s| - |HEADING| && s[i..][..|HEADING|] == HEADING;
    var n, m := |status|, |status| + |name|;
    var k := m + |middle|;
    HeadingChars(s, i);
    assert n <= i && (i < m || k <= i);
    if i < m {
      assert s[m] == ':';
      assert i + |HEADING| <= m;
      assert name[i - n..][..|HEADING|] == s[i..][..|HEADING|];
    } else {
      assert rest[i - k..][..|HEADING|] == s[i..][..|HEADING|];
    }
  }

  lemma {:induction false} HeadingChars(s: string, i: nat)
    requires i + |HEADING| <= |s| && s[i..][..|HEADING|] == HEADING
    ensures s[i] == 'W' && forall j | i <= j < i + |HEADING| :: s[j] != ':'
  {
    var part := s[i..][..|HEADING|];
    assert forall j | i <= j < i + |HEADING| :: s[j] == part[j - i];
    assert part[0] == 'W' && forall j | 0 <= j < |HEADING| :: part[j] != ':';
  }

  lemma {:induction false} RowPlain(r: WorkloadResult)
    requires Plain(r.name) && Plain(r.error) && !Contains(r.name, HEADING) && !Contains(r.error, HEADING)
    ensures Plain(PrintRow(r)) && !Contains(PrintRow(r), HEADING)
  {
    hide Contains, Line, IsSpace;
    var rest := ErrorPart(r.error);
    var middle := LineParts(r, rest);
    assert Plain(middle) by { FixedIsPlain(middle); }
    assert Plain(Status(r)) && All(Status(r), Fixed);
    PlainAppend(middle, rest);
    PlainAppend(r.name, middle + rest);
    PlainAppend(Status(r), r.name + (middle + rest));
    if Contains(PrintRow(r), HEADING) {
      HeadingInLine(Status(r), r.name, middle, rest);
      HeadingInErrorPart(r.error);
    }
  }

  lemma {:induction false} FixedIsPlain(s: string)
    requires All(s, Fixed)
    ensures Plain(s)
  {
  }

  lemma {:induction false} PlainAppend(a: string, b: string)
    requires Plain(a) && Plain(b)
    ensures Plain(a + b)
  {
  }

  lemma {:induction false} SliceBehind(a: string, b: string, i: nat, n: nat)
    requires |a| <= i && i + n <= |a + b|
    ensures (a + b)[i..][..n] == b[i - |a|..][..n]
  {
  }

  /** The heading cannot start in a text without its first letter. */
  lemma {:induction false} FoundBehind(a: string, b: string, i: nat)
    requires All(a, Fixed) && i + |HEADING| <= |a + b| && (a + b)[i..][..|HEADING|] == HEADING
    ensures Contains(b, HEADING)
  {
    HeadingChars(a + b, i);
    assert forall j | 0 <= j < |a| :: (a + b)[j] == a[j] && Fixed(a[j]);
    SliceBehind(a, b, i, |HEADING|);
  }

  lemma {:induction false} HeadingInErrorPart(error: string)
    requires Contains(ErrorPart(error), HEADING)
    ensures Contains(error, HEADING)
  {
    hide HEADING;
    if error != "" {
      var i :| 0 <= i <= |DASH + error| - |HEADING| && (DASH + error)[i..][..|HEADING|] == HEADING;
      FoundBehind(DASH, error, i);
    }
  }

  lemma {:induction false} OneLineRows(line: string)
    requires !Contains(line, HEADING)
    ensures ParseFrom([line], true) == RowsIn(line) && ParseFrom([line, ""], true) == RowsIn(line)
  {
    hide RowsIn, Contains;
    assert [line][1..] == [] && [line, ""][1..] == [""] && [""][1..] == [];
    assert !Contains("", HEADING) && RowsIn("") == [] by { EmptyLine(); }
    assert ParseFrom([""], true) == [] + [];
  }

  lemma {:induction false} EmptyLine()
    ensures !Contains("", HEADING) && RowsIn("") == []
  {
  }

  lemma {:induction false} OwnOfSurvivor(r: WorkloadResult)
    requires NameFits(r) && Survives(r)
    ensures Own(r) == [RowOf(r)]
  {
    hide Contains, IsSpace, ParseRow, PrintRow, Seen, ParseFrom;
    EmptyLine();
    RowPlain(r);
    LineSeen(PrintRow(r));
    OneLineRows(PrintRow(r));
    RowRoundTrip(r) by { assert Clean(r) by { SurvivorIsClean(r); } }
  }

  lemma {:induction false} SurvivorIsClean(r: WorkloadResult)
    requires NameFits(r) && Survives(r)
    ensures Clean(r)
  {
  }

  /** Every row read from lines comes from one of them. */
  lemma {:induction false} RowComesFromLine(lines: seq<string>, row: Row) returns (line: string)
    requires row in ParseFrom(lines, true)
    ensures line in lines && !Contains(line, HEADING) && ParseRow(line) == Some(row)
    decreases lines
  {
    hide Contains, ParseRow;
    if !Contains(lines[0], HEADING) && row in RowsIn(lines[0]) {
      line := lines[0];
    } else {
      line := RowComesFromLine(lines[1..], row);
    }
  }

  /** The error of a row is a part of its line. */
  lemma {:induction false} ErrorInLine(line: string) returns (a: nat, b: nat)
    requires ParseRow(line).Some? && ParseRow(line).value.error != ""
    ensures a <= b <= |line| && line[a..b] == ParseRow(line).value.error && b - a < |line|
  {
    hide ScanRow, IsSpace, Trim, Contains, All;
    var s, error := Trim(line), ParseRow(line).value.error;
    RowErrorIsSuffix(s);
    SuffixOfTail(DASH, error, s);
    var k := TrimIsPart(line);
    a, b := k + |s| - |error|, k + |s|;
    SliceOfSlice(line, k, |s|, |s| - |error|);
  }

  lemma {:induction false} SliceOfSlice(s: string, k: nat, n: nat, from: nat)
    requires k + n <= |s| && from <= n
    ensures s[k..k + n][from..] == s[k + from..k + n]
  {
  }

  lemma {:induction false} SuffixOfTail(dash: string, error: string, s: string)
    requires Suffix(dash + error, s)
    ensures |dash| + |error| <= |s| && s[|s| - |error|..] == error
  {
  }

  lemma {:induction false} TrimIsPart(line: string) returns (k: nat)
    ensures k + |Trim(line)| <= |line| && line[k..k + |Trim(line)|] == Trim(line)
  {
    hide IsSpace;
    k := |line| - |TrimLeft(line)|;
  }

  lemma {:induction false} PartIsPlain(line: string, a: nat, b: nat)
    requires a <= b <= |line| && Plain(line)
    ensures Plain(line[a..b])
  {
  }

  /** A line that yields the row of `r` has room for its error, and makes it plain, stripped and heading-free. */
  lemma {:induction false} LineOfRow(line: string, r: WorkloadResult)
    requires Plain(line) && !Contains(line, HEADING) && ParseRow(line) == Some(RowOf(r)) && r.error != ""
    ensures Plain(r.error) && !IsSpace(r.error[|r.error| - 1]) && !Contains(r.error, HEADING) && |r.error| < |line|
  {
    hide ParseRow, Contains, IsSpace, Plain;
    var a, b := ErrorInLine(line);
    PartIsPlain(line, a, b);
    ParsedErrorIsClean(line);
    if Contains(r.error, HEADING) {
      ContainsInPart(line, a, b, HEADING);
    }
  }

  /** A row longer than the reader's bound is cut inside its error. */
  lemma {:induction false} CutRowDiffers(r: WorkloadResult)
    requires NameFits(r) && r.error != "" && Plain(r.error) && |PrintRow(r)| > MAX_LINE_CHARS
    ensures ParseRow(PrintRow(r)[..MAX_LINE_CHARS]) != Some(RowOf(r))
  {
    hide IsSpace, Contains, ParseRow;
    LineAppend(r, ErrorPart(r.error));
    LineAppend(r, DASH);
    var head := Line(r, "");
    var k := MAX_LINE_CHARS - |head| - |DASH|;
    var e := r.error[..k];
    assert PrintRow(r)[..MAX_LINE_CHARS] == head + (DASH + e);
    LineAppend(r, DASH + e);
    ShorterErrorDiffers(r, e);
  }

  lemma {:induction false} ShorterErrorDiffers(r: WorkloadResult, e: string)
    requires NameFits(r) && |e| < |r.error|
    ensures ParseRow(Line(r, DASH + e)) != Some(RowOf(r))
  {
    hide Line, ScanRow, IsSpace, Contains;
    var tail := TrimRight(DASH + e);
    TrimLine(r, DASH + e);
    TrimmedStart(DASH + e);
    ScanLineOf(r, tail);
  }

  lemma {:induction false} TrimmedStart(s: string)
    requires s != "" && IsSpace(s[0])
    ensures TrimRight(s) == "" || IsSpace(TrimRight(s)[0])
  {
  }

  /** A result that does not survive never yields its own row. */
  lemma {:induction false} OwnOfCasualty(r: WorkloadResult)
    requires NameFits(r) && !Survives(r)
    ensures RowOf(r) !in Own(r)
  {
    hide ParseRow, Contains, IsSpace, ParseFrom, Lines, Universal, Plain, Line;
    if RowOf(r) in Own(r) {
      var text := Universal(PrintRow(r) + "\n");
      var line := RowComesFromLine(Lines(text), RowOf(r));
      LineFacts(text, line);
      EmptyErrorFits(r);
      LineOfRow(line, r);
      CasualtyLines(r, line);
    }
  }

  lemma {:induction false} EmptyErrorFits(r: WorkloadResult)
    requires |Line(r, DASH)| < MAX_LINE_CHARS && !Survives(r)
    ensures r.error != ""
  {
  }

  /** The lines of an overlong row: the cut row, and pieces of the error too short to repeat it. */
  lemma {:induction false} CasualtyLines(r: WorkloadResult, line: string)
    requires NameFits(r) && r.error != "" && Plain(r.error) && !Contains(r.error, HEADING)
    requires |PrintRow(r)| > MAX_LINE_CHARS
    requires line in Seen(PrintRow(r) + "\n")
    ensures ParseRow(line) == Some(RowOf(r)) ==> |line| <= |r.error|
  {
    hide ParseRow, Contains, IsSpace, Plain, LineEnd, Line;
    var row := PrintRow(r);
    var s := row + "\n";
    RowPlain(r);
    PlainUniversal(row);
    LongLineEnd(row);
    var rest := s[MAX_LINE_CHARS..];
    assert s[..MAX_LINE_CHARS] == row[..MAX_LINE_CHARS];
    PartIsPlain(row, 0, MAX_LINE_CHARS);
    LastNotNewline(row[..MAX_LINE_CHARS]) by { PlainParts(row[..MAX_LINE_CHARS]); }
    CutRowDiffers(r);
    LineAppend(r, DASH);
    LineAppend(r, ErrorPart(r.error));
    if line != row[..MAX_LINE_CHARS] {
      assert line in Lines(rest);
      PlainUniversalRest(row, MAX_LINE_CHARS);
      LineFacts(rest, line);
    }
  }

  lemma {:induction false} PlainParts(s: string)
    requires Plain(s)
    ensures All(s, NotNewline) && All(s, NotReturn)
  {
  }

  lemma {:induction false} PlainUniversal(row: string)
    requires Plain(row)
    ensures Universal(row + "\n") == row + "\n"
  {
    UniversalId(row + "\n");
  }

  lemma {:induction false} PlainUniversalRest(row: string, n: nat)
    requires Plain(row) && n <= |row|
    ensures All((row + "\n")[n..], NotReturn)
  {
  }

  lemma {:induction false} LongLineEnd(row: string)
    requires Plain(row) && |row| > MAX_LINE_CHARS
    ensures LineEnd(row + "\n") == MAX_LINE_CHARS
  {
  }

  // ------------------------------------------------------------------ the whole table

  function RowsOf(results: seq<WorkloadResult>): seq<Row> {
    if results == [] then [] else [RowOf(results[0])] + RowsOf(results[1..])
  }

  function OwnRows(results: seq<WorkloadResult>): seq<Row> {
    if results == [] then [] else Own(results[0]) + OwnRows(results[1..])
  }

  predicate AllFit(results: seq<WorkloadResult>) {
    forall i | 0 <= i < |results| :: NameFits(results[i])
  }

  predicate AllSurvive(results: seq<WorkloadResult>) {
    forall i | 0 <= i < |results| :: Survives(results[i])
  }

  /** A batch that lags behind the table by some rows never catches up. */
  lemma {:induction false} NeverCatchesUp(results: seq<WorkloadResult>, ahead: seq<Row>)
    requires AllFit(results) && ahead != []
    ensures OwnRows(results) != ahead + RowsOf(results)
    decreases results
  {
    hide NameFits, Survives, Own, RowOf;
    if results != [] && OwnRows(results) == ahead + RowsOf(results) {
      var r, own := results[0], Own(results[0]);
      var rest := RowsOf(results[1..]);
      assert ahead + RowsOf(results) == (ahead + [RowOf(r)]) + rest;
      if |own| <= |ahead| {
        var lag := ahead[|own|..] + [RowOf(r)];
        assert OwnRows(results[1..]) == OwnRows(results)[|own|..];
        assert OwnRows(results[1..]) == lag + rest;
        NeverCatchesUp(results[1..], lag);
      } else {
        assert own[|ahead|] == OwnRows(results)[|ahead|] == RowOf(r);
        if Survives(r) {
          OwnOfSurvivor(r);
        } else {
          OwnOfCasualty(r);
        }
      }
    }
  }

  lemma {:induction false} ExactIffAllSurvive(results: seq<WorkloadResult>)
    requires AllFit(results)
    ensures OwnRows(results) == RowsOf(results) <==> AllSurvive(results)
    decreases results
  {
    hide NameFits, Survives, Own, RowOf;
    if results != [] {
      var r, own, rest := results[0], Own(results[0]), RowsOf(results[1..]);
      ExactIffAllSurvive(results[1..]);
      if Survives(r) {
        OwnOfSurvivor(r);
        assert OwnRows(results)[1..] == OwnRows(results[1..]) && RowsOf(results)[1..] == rest;
        assert AllSurvive(results) <==> AllSurvive(results[1..]) by {
          assert forall i | 0 < i < |results| :: results[i] == results[1..][i - 1];
        }
      } else {
        OwnOfCasualty(r);
        assert own != [] ==> own[0] in own && OwnRows(results)[0] == own[0];
        if OwnRows(results) == RowsOf(results) {
          assert own == [];
          assert OwnRows(results[1..]) == [RowOf(r)] + rest;
          NeverCatchesUp(results[1..], [RowOf(r)]);
        }
      }
    }
  }

  // ------------------------------------------------------------------ the whole output

  lemma {:induction false} TableRowsSeen(results: seq<WorkloadResult>, rest: string)
    ensures ParseFrom(Seen(TableRows(results) + rest), true) == OwnRows(results) + ParseFrom(Seen(rest), true)
    decreases results
  {
    hide ParseRow, Contains, PrintRow, Lines, Universal, RowsIn;
    if results == [] {
      assert "" + rest == rest;
    } else {
      var row, more := PrintRow(results[0]) + "\n", TableRows(results[1..]) + rest;
      assert TableRows(results) + rest == row + more;
      SeenAppend(row, more);
      ParseInSummary(Seen(row), Seen(more));
      TableRowsSeen(results[1..], rest);
    }
  }

  lemma {:induction false} ParseInSummary(a: seq<string>, b: seq<string>)
    ensures ParseFrom(a + b, true) == ParseFrom(a, true) + ParseFrom(b, true)
  {
    hide ParseFrom;
    ParseAppend(a, b, true);
  }

  lemma {:induction false} TrimKeepsFirst(line: string)
    requires line != "" ==> !IsSpace(line[0])
    ensures Trim(line) == "" || (line != "" && Trim(line)[0] == line[0])
  {
  }

  lemma {:induction false} NoBracketNoStatus(s: string)
    requires s == "" || s[0] != '['
    ensures ScanStatus(s) == NoMatch
  {
  }

  /** A line whose first character is visible and not a bracket holds no row. */
  lemma {:induction false} NoRowInLine(line: string)
    requires line != "" ==> !IsSpace(line[0]) && line[0] != '['
    ensures RowsIn(line) == []
  {
    hide IsSpace, Trim, ScanStatus, ScanName, ScanFigures;
    TrimKeepsFirst(line);
    NoBracketNoStatus(Trim(line));
  }

  lemma {:induction false} NoRowsInLines(lines: seq<string>, inSummary: bool)
    requires forall i | 0 <= i < |lines| :: RowsIn(lines[i]) == []
    ensures ParseFrom(lines, inSummary) == []
    decreases lines
  {
    hide RowsIn, Contains;
    if lines != [] {
      forall i | 0 <= i < |lines[1..]| ensures RowsIn(lines[1..][i]) == [] {
        assert lines[1..][i] == lines[i + 1];
      }
      NoRowsInLines(lines[1..], inSummary || Contains(lines[0], HEADING));
    }
  }

  /** Short plain lines are seen as they were printed. */
  lemma {:induction false} PrintSeen(lines: seq<string>, rest: string)
    requires forall i | 0 <= i < |lines| :: Plain(lines[i]) && |lines[i]| < MAX_LINE_CHARS
    ensures Seen(Print(lines) + rest) == lines + Seen(rest)
    decreases lines
  {
    hide Seen, Plain;
    if lines == [] {
      assert Print(lines) + rest == rest;
    } else {
      var line, more := lines[0] + "\n", Print(lines[1..]);
      assert Print(lines) + rest == line + (more + rest);
      SeenAppend(line, more + rest);
      LineSeen(lines[0]);
      PrintSeen(lines[1..], rest);
      assert lines == [lines[0]] + lines[1..];
    }
  }

  lemma {:induction false} BarPlain()
    ensures Plain(BAR) && |BAR| < MAX_LINE_CHARS && BAR[0] == '='
    ensures Plain("") && !IsSpace('=') && !IsSpace('D')
  {
  }

  lemma {:induction false} ExecutionPlain(failed: bool)
    ensures Plain(Execution(failed)) && Plain("s")
  {
    var state := if failed then "failed" else "succeeded";
    PlainAppend(state, "; detection=not_evaluated");
    PlainAppend("; execution=", state + "; detection=not_evaluated");
  }

  lemma {:induction false} DoneTitlePlain(tenths: nat, failed: bool)
    ensures Plain(DoneTitle(tenths, failed)) && DoneTitle(tenths, failed)[0] == 'D'
  {
    hide PrintNat, IsSpace;
    ExecutionPlain(failed);
    var seconds := "s" + Execution(failed);
    PlainAppend("s", Execution(failed));
    PlainAppend([Digit(tenths % 10)], seconds);
    PlainAppend(".", [Digit(tenths % 10)] + seconds);
    DigitsFixed(tenths / 10);
    FixedIsPlain(PrintNat(tenths / 10));
    PlainAppend(PrintNat(tenths / 10), "." + ([Digit(tenths % 10)] + seconds));
    PlainAppend("DONE in ", Elapsed(tenths, Execution(failed)));
  }

  /** The closing title tells the duration and whether the suite failed. */
  lemma {:induction false} DoneTitleTells(tenths: nat, failed: bool)
    ensures var s := DoneTitle(tenths, failed);
            && "DONE in " <= s
            && ScanElapsed(s[8..])
               == Match(Tenths(tenths), if failed then "; execution=" + ("failed" + "; detection=not_evaluated")
                                        else "; execution=" + ("succeeded" + "; detection=not_evaluated"))
  {
    hide Elapsed, ScanElapsed;
    ScanElapsedOf(tenths, Execution(failed));
  }

  /** An error line without a colon is no row. */
  lemma {:induction false} ErrorLineHasNoRow(error: string)
    requires error != "" && !IsSpace(error[|error| - 1]) && All(error, NotColon)
    ensures RowsIn(ErrorLine(error)) == []
  {
    hide IsSpace, Trim, ScanStatus, ScanName, ScanFigures;
    var s := ErrorLine(error);
    BracketVisible();
    assert Trim(s) == s;
    ScanErrorStatus(error);
    NoColonNoName(error);
  }

  lemma {:induction false} ScanErrorStatus(error: string)
    ensures ScanStatus(ErrorLine(error)) == Match(false, error)
  {
    var s := ErrorLine(error);
    assert s[1] == 'E' && s[2] == 'R' && s[6..] == error;
  }

  lemma {:induction false} NoColonNoName(s: string)
    requires All(s, NotColon)
    ensures ScanName(s) == NoMatch
  {
  }

  lemma {:induction false} BracketVisible()
    ensures !IsSpace('[')
  {
  }

  lemma {:induction false} ExitLineHasNoRow()
    ensures RowsIn(ErrorLine(EXIT_ERROR)) == [] && Plain(ErrorLine(EXIT_ERROR))
  {
    hide RowsIn;
    ErrorLineHasNoRow(EXIT_ERROR);
    PlainAppend("[ERR] ", EXIT_ERROR);
  }

  lemma {:induction false} ExitSeen(failed: bool)
    ensures var last := if failed then ErrorLine(EXIT_ERROR) + "\n" else "";
            Seen(last) == if failed then [ErrorLine(EXIT_ERROR)] else []
  {
    hide RowsIn;
    ExitLineHasNoRow();
    LineSeen(ErrorLine(EXIT_ERROR));
  }

  /** What the driver prints behind the table adds no row. */
  lemma {:induction false} ClosingHasNoRows(tenths: nat, failed: bool)
    requires |DoneTitle(tenths, failed)| < MAX_LINE_CHARS
    ensures ParseFrom(Seen(Closing(tenths, failed)), true) == []
  {
    hide Seen, ParseFrom, RowsIn, Print, Plain, BAR, DoneTitle, ErrorLine, IsSpace;
    var title := DoneTitle(tenths, failed);
    DoneTitlePlain(tenths, failed);
    ExitLineHasNoRow();
    ExitSeen(failed);
    BarPlain();
    PrintSeen(["", BAR, title, BAR], if failed then ErrorLine(EXIT_ERROR) + "\n" else "");
    NoRowInLine("");
    NoRowInLine(BAR);
    NoRowInLine(title);
    NoRowsInLines(Seen(Closing(tenths, failed)), true);
  }

  /** The output of a suite run: anything, the table, and the closing lines. */
  function Output(before: string, results: seq<WorkloadResult>, tenths: nat, failed: bool): string {
    before + (Table(results) + Closing(tenths, failed))
  }

  /** The lines up to and including the heading, and those behind it. */
  lemma {:induction false} OutputLines(before: string, results: seq<WorkloadResult>, tenths: nat, failed: bool)
    ensures Seen(Output(before, results, tenths, failed)) ==
            (Seen(before + "\n") + [BAR]) + [HEADING] + ([BAR] + Seen(TableRows(results) + Closing(tenths, failed)))
  {
    hide Seen, Closing, TableRows, BAR;
    var rest := TableRows(results) + Closing(tenths, failed);
    var lines := [BAR, HEADING, BAR];
    assert ["", BAR, HEADING, BAR][1..] == lines;
    assert Header(HEADING) == "\n" + Print(lines) by { assert "" + "\n" == "\n"; }
    assert Output(before, results, tenths, failed) == (before + "\n") + (Print(lines) + rest);
    SeenAppend(before + "\n", Print(lines) + rest);
    BarPlain();
    PrintSeen(lines, rest);
    assert Seen(before + "\n") + (lines + Seen(rest))
        == (Seen(before + "\n") + [BAR]) + [HEADING] + ([BAR] + Seen(rest));
  }

  lemma {:induction false} HeadingHasW(s: string)
    requires Contains(s, HEADING)
    ensures exists i :: 0 <= i < |s| && s[i] == 'W'
  {
    var i :| 0 <= i <= |s| - |HEADING| && s[i..][..|HEADING|] == HEADING;
    assert s[i..][..|HEADING|][0] == s[i] && HEADING[0] == 'W';
  }

  lemma {:induction false} BarHasNoHeading()
    ensures !Contains(BAR, HEADING) && RowsIn(BAR) == [] && Contains(HEADING, HEADING)
  {
    hide RowsIn;
    var bar := BAR;
    NoRowInLine(bar);
    if Contains(bar, HEADING) {
      HeadingHasW(bar);
    }
    assert HEADING[0..][..|HEADING|] == HEADING;
  }

  /** Whatever heading-free output came before, the batch is the rows that the results' own lines give. */
  lemma {:induction false} TableIsOwnRows(before: string, results: seq<WorkloadResult>, tenths: nat, failed: bool)
    requires !HasHeading(Seen(before + "\n")) && |DoneTitle(tenths, failed)| < MAX_LINE_CHARS
    ensures ParseFrom(Seen(Output(before, results, tenths, failed)), false) == OwnRows(results)
  {
    hide Contains, RowsIn, Seen, BAR, Closing, TableRows, Output, DoneTitle;
    var bar := BAR;
    var front, table := Seen(before + "\n") + [bar], Seen(TableRows(results) + Closing(tenths, failed));
    OutputLines(before, results, tenths, failed);
    BarHasNoHeading();
    NoHeadingAppend(Seen(before + "\n"), bar);
    HeadingSplits(front, HEADING, [bar] + table);
    assert ([bar] + table)[1..] == table;
    TableRowsSeen(results, Closing(tenths, failed));
    ClosingHasNoRows(tenths, failed);
    assert OwnRows(results) + [] == OwnRows(results);
  }

  /**
    * The dashboard reads the driver's table back exactly, in order, whatever heading-free output came before,
    * if and only if every error fits: one line, no trailing space, not the heading, within the reader's bound.
    */
  lemma {:induction false} TableRoundTripIff(before: string, results: seq<WorkloadResult>, tenths: nat, failed: bool)
    requires !HasHeading(Seen(before + "\n")) && AllFit(results) && |DoneTitle(tenths, failed)| < MAX_LINE_CHARS
    ensures ParseFrom(Seen(Output(before, results, tenths, failed)), false) == RowsOf(results) <==> AllSurvive(results)
  {
    hide HasHeading, Seen, Output, AllFit, AllSurvive, DoneTitle, ParseFrom, OwnRows, RowsOf;
    TableIsOwnRows(before, results, tenths, failed);
    ExactIffAllSurvive(results);
  }

  lemma {:induction false} NoHeadingAppend(lines: seq<string>, line: string)
    requires !HasHeading(lines) && !Contains(line, HEADING)
    ensures !HasHeading(lines + [line])
  {
  }

  // ------------------------------------------------------------------ errors that are not read back

  /** A failed workload of the suite with the given error. */
  function Failed(error: string): WorkloadResult {
    WorkloadResult("http", 1, 15, error)
  }

  lemma {:induction false} FailedFits(error: string)
    ensures NameFits(Failed(error))
  {
    hide IsSpace, PrintNat;
    var r := Failed(error);
    assert !IsSpace('h') && !IsSpace('p') by { LettersAreVisible(); }
    assert !Contains("http", HEADING) by { ShorterThanHeading("http"); }
    assert PrintNat(1) == "1" by { OneDigit(1); }
    assert PrintInt(1) == "1";
  }

  lemma {:induction false} LettersAreVisible()
    ensures !IsSpace('h') && !IsSpace('p')
  {
  }

  lemma {:induction false} ShorterThanHeading(s: string)
    requires |s| < |HEADING|
    ensures !Contains(s, HEADING)
  {
  }

  lemma {:induction false} OneDigit(n: nat)
    requires n < 10
    ensures PrintNat(n) == [Digit(n)] && |PrintNat(n)| == 1
  {
  }

  /** Errors of one line that spoil the round trip: a blank at the end, a carriage return, and sheer length. */
  function SpoilingErrors(): seq<string> {
    ["e ", "a\rb", Repeat('x', MAX_LINE_CHARS)]
  }

  lemma {:induction false} SpoilingErrorsDoNotSurvive(k: nat)
    requires k < 3
    ensures All(SpoilingErrors()[k], NotNewline) && !Survives(Failed(SpoilingErrors()[k]))
  {
    hide Contains;
    if k == 0 {
      assert IsSpace("e "[1]);
    } else if k == 1 {
      assert "a\rb"[1] == '\r';
    } else {
      LongRow(Repeat('x', MAX_LINE_CHARS));
    }
  }

  lemma {:induction false} LongRow(error: string)
    requires error != ""
    ensures |PrintRow(Failed(error))| > |error|
  {
    LineAppend(Failed(error), DASH + error);
    hide Line;
  }

  /** The table of a suite with one such error is not read back, whatever heading-free output came before. */
  lemma {:induction false} SpoiledTable(before: string, k: nat)
    requires !HasHeading(Seen(before + "\n")) && k < 3
    ensures var results := [Failed(SpoilingErrors()[k])];
            ParseFrom(Seen(Output(before, results, 15, true)), false) != RowsOf(results)
  {
    hide NameFits, Survives, HasHeading, Output, ParseFrom, RowsOf, Seen, DoneTitle;
    var r := Failed(SpoilingErrors()[k]);
    FailedFits(r.error);
    SpoilingErrorsDoNotSurvive(k);
    assert [r][0] == r;
    ShortTitle();
    TableRoundTripIff(before, [r], 15, true);
  }

  lemma {:induction false} ShortTitle()
    ensures |DoneTitle(15, true)| < MAX_LINE_CHARS
  {
    OneDigit(1);
    hide PrintNat;
  }
}
