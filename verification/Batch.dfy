/** From the driver's printed table, through the dashboard's line reader, to a recorded batch. */
module Batch {
  import opened Text
  import opened Summary

  /** The dashboard reads at most this many characters at a time. */
  const MAX_LINE_CHARS := 4096

  // ------------------------------------------------------------------ reading output

  predicate NotReturn(c: char) {
    c != '\r'
  }

  /** Newline translation of a text-mode pipe. */
  function Universal(s: string): (r: string)
    ensures All(r, NotReturn)
  {
    if s == "" then ""
    else if s[0] == '\r' then "\n" + Universal(if |s| > 1 && s[1] == '\n' then s[2..] else s[1..])
    else [s[0]] + Universal(s[1..])
  }

  /** How much one bounded `readline` takes. */
  function LineEnd(s: string): (n: nat)
    requires s != ""
    ensures 0 < n <= |s| && n <= MAX_LINE_CHARS
    ensures All(s[..n - 1], NotNewline)
  {
    var n := Span(s, NotNewline);
    if n >= MAX_LINE_CHARS then
      assert s[..MAX_LINE_CHARS - 1] == s[..n][..MAX_LINE_CHARS - 1];
      MAX_LINE_CHARS
    else if n < |s| then n + 1
    else
      assert s[..n - 1] == s[..n][..n - 1];
      n
  }

  function DropNewline(line: string): (r: string)
    ensures r <= line
  {
    if line != "" && line[|line| - 1] == '\n' then line[..|line| - 1] else line
  }

  /** The lines the dashboard emits for a text. */
  function Lines(s: string): seq<string> {
    if s == "" then []
    else [DropNewline(s[..LineEnd(s)])] + Lines(s[LineEnd(s)..])
  }

  // ------------------------------------------------------------------ printing the table

  function Repeat(c: char, n: nat): (s: string)
    ensures |s| == n && forall i | 0 <= i < n :: s[i] == c
  {
    if n == 0 then "" else [c] + Repeat(c, n - 1)
  }

  function Print(lines: seq<string>): string {
    if lines == [] then "" else (lines[0] + "\n") + Print(lines[1..])
  }

  const BAR := Repeat('=', 70)

  /** A title between two bars, after an empty line. */
  function Header(title: string): string {
    Print(["", BAR, title, BAR])
  }

  function TableRows(results: seq<WorkloadResult>): string {
    if results == [] then "" else PrintRow(results[0]) + ("\n" + TableRows(results[1..]))
  }

  /** What the driver prints once every workload has ended. */
  function Table(results: seq<WorkloadResult>): string {
    Header(HEADING) + TableRows(results)
  }

  const EXIT_ERROR := "process exited with status 1"

  function ErrorLine(error: string): string {
    "[ERR] " + error
  }

  /** What the title says behind the duration. */
  function Execution(failed: bool): string {
    "; execution=" + ((if failed then "failed" else "succeeded") + "; detection=not_evaluated")
  }

  function DoneTitle(tenths: nat, failed: bool): string {
    "DONE in " + Elapsed(tenths, Execution(failed))
  }

  /** What the driver prints after the table: its own duration and, on failure, its exit status. */
  function Closing(tenths: nat, failed: bool): string {
    Header(DoneTitle(tenths, failed)) + if failed then ErrorLine(EXIT_ERROR) + "\n" else ""
  }

  // ------------------------------------------------------------------ parsing lines

  function RowsIn(line: string): seq<Row> {
    match ParseRow(line) case Some(row) => [row] case None => []
  }

  /** Rows of the lines, once the heading has been seen. */
  function ParseFrom(lines: seq<string>, inSummary: bool): seq<Row> {
    if lines == [] then []
    else if Contains(lines[0], HEADING) then ParseFrom(lines[1..], true)
    else (if inSummary then RowsIn(lines[0]) else []) + ParseFrom(lines[1..], inSummary)
  }

  /** The dashboard's extraction of a batch from the lines of a run. */
  method ParseBatchFromLines(lines: seq<string>) returns (results: seq<Row>)
    ensures results == ParseFrom(lines, false)
  {
    hide ParseRow, Contains;
    results := [];
    var inSummary := false;
    for i := 0 to |lines|
      invariant ParseFrom(lines, false) == results + ParseFrom(lines[i..], inSummary)
    {
      assert lines[i..][1..] == lines[i + 1..];
      if Contains(lines[i], HEADING) {
        inSummary := true;
        continue;
      }
      if !inSummary {
        continue;
      }
      var m := ParseRow(lines[i]);
      if m.Some? {
        results := results + [m.value];
      }
    }
  }

  // ------------------------------------------------------------------ truncated output

  predicate HasHeading(lines: seq<string>) {
    exists i :: 0 <= i < |lines| && Contains(lines[i], HEADING)
  }

  lemma {:induction false} NoHeadingNoRows(lines: seq<string>)
    requires !HasHeading(lines)
    ensures ParseFrom(lines, false) == []
  {
    if lines != [] {
      assert !Contains(lines[0], HEADING);
      forall i | 0 <= i < |lines[1..]| ensures !Contains(lines[1..][i], HEADING) {
        assert lines[1..][i] == lines[i + 1];
      }
      NoHeadingNoRows(lines[1..]);
    }
  }

  lemma {:induction false} ParseAppend(a: seq<string>, b: seq<string>, inSummary: bool)
    ensures ParseFrom(a + b, inSummary) == ParseFrom(a, inSummary) + ParseFrom(b, inSummary || HasHeading(a))
  {
    hide RowsIn, Contains;
    if a == [] {
      assert a + b == b;
    } else {
      assert (a + b)[1..] == a[1..] + b;
      var heading := Contains(a[0], HEADING);
      ParseAppend(a[1..], b, inSummary || heading);
      assert HasHeading(a) <==> heading || HasHeading(a[1..]) by {
        if HasHeading(a[1..]) {
          var i :| 0 <= i < |a[1..]| && Contains(a[1..][i], HEADING);
          assert Contains(a[i + 1], HEADING);
        }
        if HasHeading(a) && !heading {
          var i :| 0 <= i < |a| && Contains(a[i], HEADING);
          assert a[1..][i - 1] == a[i];
        }
      }
    }
  }

  /** Losing the first lines of the output loses whole rows from the front of the batch, and nothing else. */
  lemma {:induction false} TruncationGivesSuffix(lines: seq<string>, k: nat) returns (j: nat)
    requires k <= |lines|
    ensures j <= |ParseFrom(lines, false)|
    ensures ParseFrom(lines[k..], false) == ParseFrom(lines, false)[j..]
  {
    assert lines == lines[..k] + lines[k..];
    ParseAppend(lines[..k], lines[k..], false);
    var front := ParseFrom(lines[..k], false);
    j := |front|;
    if HasHeading(lines[..k]) {
      var more := ParseBeforeHeading(lines[k..]);
      j := j + more;
    } else {
      NoHeadingNoRows(lines[..k]);
    }
  }

  /** Parsing with the flag already set only adds rows in front. */
  lemma {:induction false} ParseBeforeHeading(lines: seq<string>) returns (j: nat)
    ensures j <= |ParseFrom(lines, true)|
    ensures ParseFrom(lines, false) == ParseFrom(lines, true)[j..]
  {
    hide RowsIn, Contains;
    if lines == [] {
      j := 0;
    } else if Contains(lines[0], HEADING) {
      j := 0;
    } else {
      j := ParseBeforeHeading(lines[1..]);
      j := j + |RowsIn(lines[0])|;
    }
  }

  /** With one heading line, a truncated output gives the whole batch or none of it. */
  lemma {:induction false} TruncationAllOrNothing(before: seq<string>, heading: string, after: seq<string>, k: nat)
    requires !HasHeading(before) && Contains(heading, HEADING) && !HasHeading(after)
    requires k <= |before| + 1 + |after|
    ensures var lines := before + [heading] + after;
            ParseFrom(lines[k..], false) == if k <= |before| then ParseFrom(lines, false) else []
  {
    hide RowsIn, Contains;
    var lines := before + [heading] + after;
    if k <= |before| {
      HeadingSplits(before, heading, after);
      assert lines[k..] == before[k..] + [heading] + after;
      SubseqHasNoHeading(before, k);
      HeadingSplits(before[k..], heading, after);
    } else {
      assert lines[k..] == after[k - |before| - 1..];
      SubseqHasNoHeading(after, k - |before| - 1);
      NoHeadingNoRows(lines[k..]);
    }
  }

  lemma {:induction false} SubseqHasNoHeading(lines: seq<string>, k: nat)
    requires k <= |lines| && !HasHeading(lines)
    ensures !HasHeading(lines[k..])
  {
  }

  lemma {:induction false} HeadingSplits(before: seq<string>, heading: string, after: seq<string>)
    requires !HasHeading(before) && Contains(heading, HEADING)
    ensures ParseFrom(before + [heading] + after, false) == ParseFrom(after, true)
  {
    assert before + [heading] + after == before + ([heading] + after);
    ParseAppend(before, [heading] + after, false);
    NoHeadingNoRows(before);
    assert ([heading] + after)[1..] == after;
  }
}
