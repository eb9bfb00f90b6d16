/** From the workloads' results, through printed output and the bounded run log, to the recorded counts. */
module SuiteAccounting {
  import opened Common
  import opened Text
  import opened Sorting
  import opened Summary
  import opened Batch
  import opened BatchRoundTrip
  import opened BatchCounts
  import opened RunLog
  import opened DashboardRun
  import opened SuiteRun

  // ------------------------------------------------------------------ through the run log

  /** The worker emits line after line. */
  function EmitAll<Q>(s: RunState<Q>, lines: seq<string>): RunState<Q>
    requires Valid(s)
    decreases |lines|
  {
    if lines == [] then s else
    EmitKeepsValid(s, lines[0]);
    EmitAll(Emit(s, lines[0]), lines[1..])
  }

  lemma {:induction false} EmitsLine<Q>(s: RunState<Q>, line: string)
    requires Valid(s) && s.terminal.None? && |line| <= s.bounds.maxLineChars
    ensures var s' := Emit(s, line);
            && Valid(s') && s'.terminal.None? && s'.bounds == s.bounds
            && s'.lines == Tail(s.lines + [line], s.bounds.maxLines)
  {
    hide Valid, Tail;
    EmitKeepsValid(s, line);
    ValidParts(s);
  }

  lemma {:induction false} TailOfRest(a: seq<string>, b: seq<string>, lines: seq<string>, n: nat)
    requires lines != [] && b == Tail(a + [lines[0]], n)
    ensures Tail(b + lines[1..], n) == Tail(a + lines, n) && |b| <= n
  {
    TailOfAppend(a + [lines[0]], lines[1..], n);
    assert (a + [lines[0]]) + lines[1..] == a + lines;
  }

  /** A run that has not ended keeps the last lines it was given. */
  lemma {:induction false} EmitAllKeepsTail<Q>(s: RunState<Q>, lines: seq<string>)
    requires Valid(s) && s.terminal.None? && |s.lines| <= s.bounds.maxLines
    requires forall i | 0 <= i < |lines| :: |lines[i]| <= s.bounds.maxLineChars
    ensures EmitAll(s, lines).lines == Tail(s.lines + lines, s.bounds.maxLines)
    decreases |lines|
  {
    hide Valid, Emit;
    if lines == [] {
      assert s.lines + lines == s.lines;
    } else {
      hide Tail;
      ValidParts(s);
      var s', rest := Emit(s, lines[0]), lines[1..];
      EmitsLine(s, lines[0]);
      TailOfRest(s.lines, s'.lines, lines, s.bounds.maxLines);
      EmitAllKeepsTail(s', rest);
      assert EmitAll(s, lines) == EmitAll(s', rest);
      hide EmitAll;
    }
  }

  /** What the reader takes fits the log's own bound. */
  lemma {:induction false} LinesFit(s: string)
    ensures forall i | 0 <= i < |Lines(s)| :: |Lines(s)[i]| <= MAX_LINE_CHARS
  {
    hide LineEnd;
    if s != "" {
      LinesFit(s[LineEnd(s)..]);
    }
  }

  // ------------------------------------------------------------------ the heading is retained

  /** A log that still holds the heading yields the whole batch; `TruncationAllOrNothing` has the other case. */
  lemma {:induction false} RetainedHeading(front: seq<string>, after: seq<string>, max: nat)
    requires !HasHeading(front) && |after| < max && Contains(HEADING, HEADING)
    ensures ParseFrom(Tail(front + [HEADING] + after, max), false) == ParseFrom(front + [HEADING] + after, false)
  {
    hide Contains, ParseFrom, Tail, HasHeading;
    var k := TailFrom(front, [HEADING] + after, max);
    assert front + [HEADING] + after == front + ([HEADING] + after);
    assert front[k..] + [HEADING] + after == front[k..] + ([HEADING] + after);
    HeadingSplits(front, HEADING, after);
    SubseqHasNoHeading(front, k);
    HeadingSplits(front[k..], HEADING, after);
  }

  lemma {:induction false} TailFrom<T>(a: seq<T>, b: seq<T>, max: nat) returns (k: nat)
    requires |b| <= max
    ensures k <= |a| && Tail(a + b, max) == a[k..] + b
  {
    k := if |a + b| <= max then 0 else |a + b| - max;
    assert (a + b)[k..] == a[k..] + b;
  }

  /** A surviving row takes at most two lines. */
  lemma {:induction false} TableLineCount(results: seq<WorkloadResult>, rest: string)
    requires AllFit(results) && AllSurvive(results)
    ensures |Seen(TableRows(results) + rest)| <= 2 * |results| + |Seen(rest)|
    decreases results
  {
    hide PrintRow, Seen, NameFits, Survives;
    if results == [] {
      assert "" + rest == rest;
    } else {
      var row, more := PrintRow(results[0]) + "\n", TableRows(results[1..]) + rest;
      assert TableRows(results) + rest == row + more;
      SeenAppend(row, more);
      SurvivorLines(results[0]);
      TableLineCount(results[1..], rest);
    }
  }

  lemma {:induction false} SurvivorLines(r: WorkloadResult)
    requires NameFits(r) && Survives(r)
    ensures |Seen(PrintRow(r) + "\n")| <= 2
  {
    hide Contains, IsSpace, PrintRow, Seen;
    RowPlain(r) by { PlainWhenEmpty(r.error); }
    LineSeen(PrintRow(r));
  }

  lemma {:induction false} PlainWhenEmpty(s: string)
    requires s != "" ==> Plain(s) && !Contains(s, HEADING)
    ensures Plain(s) && !Contains(s, HEADING)
  {
  }

  lemma {:induction false} ClosingLineCount(tenths: nat, failed: bool)
    requires |DoneTitle(tenths, failed)| < MAX_LINE_CHARS
    ensures |Seen(Closing(tenths, failed))| <= 5
  {
    hide Seen, Print, Plain, DoneTitle, ErrorLine, IsSpace, BAR;
    var title := DoneTitle(tenths, failed);
    DoneTitlePlain(tenths, failed);
    ExitSeen(failed);
    BarPlain();
    PrintSeen(["", BAR, title, BAR], if failed then ErrorLine(EXIT_ERROR) + "\n" else "");
  }

  // ------------------------------------------------------------------ the counts

  predicate Succeeded(r: WorkloadResult) {
    r.returncode == 0
  }

  lemma {:induction false} RowsTally(results: seq<WorkloadResult>)
    ensures |RowsOf(results)| == |results|
    ensures |Filter(RowsOf(results), RowOk)| == |Filter(results, Succeeded)|
  {
    if results != [] {
      RowsTally(results[1..]);
      assert RowsOf(results)[1..] == RowsOf(results[1..]);
    }
  }

  lemma {:induction false} FilterMultiset<T>(s: seq<T>, t: seq<T>, p: T -> bool)
    requires multiset(s) == multiset(t)
    ensures |Filter(s, p)| == |Filter(t, p)|
    decreases s
  {
    SameLength(s, t);
    if s != [] {
      var x := s[0];
      SameMembers(s, t, x);
      var before, after := SplitAt(t, x);
      assert s == [x] + s[1..];
      assert multiset(s[1..]) == multiset(s) - multiset{x};
      FilterMultiset(s[1..], before + after, p);
      FilterMiddle(before, x, after, p);
    }
  }

  lemma {:induction false} FilterMiddle<T>(before: seq<T>, x: T, after: seq<T>, p: T -> bool)
    ensures |Filter(before + [x] + after, p)| == |Filter(before + after, p)| + if p(x) then 1 else 0
  {
    FilterAppend(before + [x], after, p);
    FilterAppend(before, [x], p);
    FilterAppend(before, after, p);
  }

  /** The lines of the dashboard's run: its command, then what it reads from the process. */
  function Emitted(command: string, output: string): seq<string> {
    [Clip("$ " + command, MAX_LINE_CHARS)] + Seen(output)
  }

  /** Bounds whose log takes the reader's lines as they come; reader and log share the dashboard's line bound. */
  predicate TakesLines(bounds: Bounds) {
    bounds.maxLines > 0 && bounds.queueSize > 0 && bounds.maxLineChars == MAX_LINE_CHARS
  }

  /** The retained lines of a run that emits them. */
  function RunLines(bounds: Bounds, lines: seq<string>): seq<string>
    requires TakesLines(bounds)
  {
    NewRunIsValid(bounds);
    EmitAll<nat>(NewRun(bounds), lines).lines
  }

  lemma {:induction false} NewRunIsValid(bounds: Bounds)
    requires TakesLines(bounds)
    ensures Valid(NewRun<nat>(bounds))
  {
  }

  const DEFAULT_MAX_WORKLOADS := 32

  predicate AnyFailure(jobs: seq<Job>) {
    exists i :: 0 <= i < |jobs| && !EndedWell(jobs[i])
  }

  /** What is read behind the heading. */
  function Behind(table: seq<WorkloadResult>, tenths: nat, failed: bool): seq<string> {
    [BAR] + Seen(TableRows(table) + Closing(tenths, failed))
  }

  /** The counts of the workloads' return codes. */
  function CodeCounts(jobs: seq<Job>): Counts {
    var succeeded := |Filter(jobs, EndedWell)|;
    Counts(succeeded, |jobs| - succeeded, |jobs|)
  }

  lemma {:induction false} FilterAllIff<T>(s: seq<T>, p: T -> bool)
    ensures |Filter(s, p)| == |s| <==> forall x | x in s :: p(x)
  {
    if s != [] {
      FilterAllIff(s[1..], p);
      assert s == [s[0]] + s[1..];
    }
  }

  /** The closing title says that the run failed iff a return code does. */
  lemma {:induction false} FailureIsCounted(jobs: seq<Job>)
    ensures AnyFailure(jobs) <==> CodeCounts(jobs).failed > 0
  {
    hide EndedWell, Filter;
    FilterAllIff(jobs, EndedWell);
  }

  /** The batch that the dashboard records of a suite run. */
  function RecordedRows(
      bounds: Bounds, command: string, before: string, table: seq<WorkloadResult>, tenths: nat, failed: bool): seq<Row>
    requires TakesLines(bounds)
  {
    ParseFrom(RunLines(bounds, Emitted(command, Output(before, table, tenths, failed))), false)
  }

  /**
    * End to end, whatever the errors are and whatever heading-free output came before. While the log retains the
    * heading, the batch is the rows that the results' lines give; its counts are those of the return codes iff the
    * rows lost and the rows found in errors have the same counts; if every result is counted, there is one row per
    * workload in name order, right in all but the error text; and errors are exact iff they survive. Once the
    * heading is pushed out, only a heading within an error can make lines behind it count.
    */
  lemma {:induction false} SuiteIsAccounted(
      bounds: Bounds, command: string, before: string, jobs: seq<Job>, completed: seq<Job>, tenths: nat)
    requires TakesLines(bounds) && multiset(jobs) == multiset(completed) && AllFit(Results(jobs))
    requires !HasHeading(Emitted(command, before + "\n"))
    requires |DoneTitle(tenths, AnyFailure(jobs))| < MAX_LINE_CHARS
    ensures var table := Sort(Results(completed), ByName);
            var behind := Behind(table, tenths, AnyFailure(jobs));
            var batch := RecordedRows(bounds, command, before, table, tenths, AnyFailure(jobs));
            if |behind| < bounds.maxLines then
              && batch == OwnRows(table)
              && (Tally(batch) == CodeCounts(jobs) <==> Tally(RowsOf(Filter(table, Headless))) == Tally(Stray(table)))
              && (AllCounted(Results(jobs)) ==> Tally(batch) == CodeCounts(jobs) && AllAlike(batch, RowsOf(table)))
              && (AllSurvive(Results(jobs)) <==> batch == RowsOf(table))
            else
              && batch == ParseFrom(Tail(behind, bounds.maxLines), false)
              && (!HasHeading(behind) ==> batch == [])
  {
    hide ResultOf, Results, NameFits, Survives, Counted, HasHeading, OwnRows, RowsOf, Sort, DoneTitle, AnyFailure,
         AllFit, AllSurvive, AllCounted, AllAlike, Behind, RecordedRows, Stray, Tally, CodeCounts, Tail, ParseFrom,
         Filter;
    var table, failed := Sort(Results(completed), ByName), AnyFailure(jobs);
    var behind := Behind(table, tenths, failed);
    TableOfJobs(jobs, completed);
    LogHoldsTable(bounds, command, before, table, tenths, failed);
    if |behind| < bounds.maxLines {
      CountsIff(table);
      ExactIffAllSurvive(table);
      if AllCounted(table) {
        CountedTable(table);
        AlikeRows(table);
      }
    } else if !HasHeading(behind) {
      TailHasNoHeading(behind, bounds.maxLines);
      NoHeadingNoRows(Tail(behind, bounds.maxLines));
    }
  }

  predicate AllAlike(a: seq<Row>, b: seq<Row>) {
    |a| == |b| && forall i | 0 <= i < |a| :: Alike(a[i], b[i])
  }

  lemma {:induction false} AlikeRows(table: seq<WorkloadResult>)
    requires |OwnRows(table)| == |table|
    requires forall i | 0 <= i < |table| :: Alike(OwnRows(table)[i], RowOf(table[i]))
    ensures AllAlike(OwnRows(table), RowsOf(table))
  {
    hide OwnRows, RowsOf, Alike, RowOf;
    RowsAt(table);
  }

  lemma {:induction false} RowsAt(table: seq<WorkloadResult>)
    ensures |RowsOf(table)| == |table| && forall i | 0 <= i < |table| :: RowsOf(table)[i] == RowOf(table[i])
  {
    if table != [] {
      RowsAt(table[1..]);
    }
  }

  lemma {:induction false} TailHasNoHeading(lines: seq<string>, max: nat)
    requires !HasHeading(lines)
    ensures !HasHeading(Tail(lines, max))
  {
    SubseqHasNoHeading(lines, |lines| - |Tail(lines, max)|);
  }

  /** The printed table has the results of the jobs, in whatever order they were completed. */
  lemma {:induction false} TableOfJobs(jobs: seq<Job>, completed: seq<Job>)
    requires multiset(jobs) == multiset(completed)
    ensures var results, table := Results(jobs), Sort(Results(completed), ByName);
            && (AllFit(results) ==> AllFit(table)) && (AllSurvive(results) <==> AllSurvive(table))
            && (AllCounted(results) ==> AllCounted(table)) && Tally(RowsOf(table)) == CodeCounts(jobs)
  {
    hide ResultOf, Results, NameFits, Survives, Counted, RowsOf, Sort;
    var results, table := Results(jobs), Sort(Results(completed), ByName);
    ResultsPermute(jobs, completed);
    SortPermutes(Results(completed), ByName);
    SameLength(table, results);
    FilterMultiset(table, results, Succeeded);
    SucceededAreWell(jobs);
    RowsTally(table);
    Shared(results, table, NameFits);
    Shared(results, table, Survives);
    Shared(table, results, Survives);
    Shared(results, table, Counted);
  }

  lemma {:induction false} SucceededAreWell(jobs: seq<Job>)
    ensures |Filter(Results(jobs), Succeeded)| == |Filter(jobs, EndedWell)|
  {
    hide ResultOf, EndedWell, Explains;
    if jobs != [] {
      SucceededAreWell(jobs[1..]);
      assert Results(jobs)[1..] == Results(jobs[1..]);
    }
  }

  lemma {:induction false} Shared<T>(a: seq<T>, b: seq<T>, p: T -> bool)
    requires multiset(a) == multiset(b)
    ensures (forall i | 0 <= i < |a| :: p(a[i])) ==> forall i | 0 <= i < |b| :: p(b[i])
  {
    if forall i | 0 <= i < |a| :: p(a[i]) {
      forall i | 0 <= i < |b| ensures p(b[i]) {
        SameMembers(b, a, b[i]);
      }
    }
  }

  /** Survivors take two lines at most, so that the dashboard's own bounds have room for the driver's own limit. */
  lemma {:induction false} SurvivorsAreRetained(table: seq<WorkloadResult>, tenths: nat, failed: bool)
    requires AllFit(table) && AllSurvive(table) && |DoneTitle(tenths, failed)| < MAX_LINE_CHARS
    ensures |Behind(table, tenths, failed)| <= 2 * |table| + 6
    ensures |table| <= DEFAULT_MAX_WORKLOADS ==> |Behind(table, tenths, failed)| < DEFAULT_BOUNDS.maxLines
  {
    hide Seen, AllFit, AllSurvive, TableRows, Closing, DoneTitle, BAR;
    TableLineCount(table, Closing(tenths, failed));
    ClosingLineCount(tenths, failed);
  }

  /** The log through which the printed output goes. */
  lemma {:induction false} LogHoldsTable(
      bounds: Bounds, command: string, before: string, table: seq<WorkloadResult>, tenths: nat, failed: bool)
    requires TakesLines(bounds) && |DoneTitle(tenths, failed)| < MAX_LINE_CHARS
    requires !HasHeading(Emitted(command, before + "\n"))
    ensures var behind := Behind(table, tenths, failed);
            RecordedRows(bounds, command, before, table, tenths, failed) ==
            if |behind| < bounds.maxLines then OwnRows(table) else ParseFrom(Tail(behind, bounds.maxLines), false)
  {
    hide Seen, Output, Clip, Contains, ParseFrom, OwnRows, Tail, RunLines, DoneTitle, BAR, Closing, HasHeading,
         TableRows;
    var first, bar := Clip("$ " + command, MAX_LINE_CHARS), BAR;
    var front := ([first] + Seen(before + "\n")) + [bar];
    var behind := Behind(table, tenths, failed);
    OutputLines(before, table, tenths, failed);
    assert Emitted(command, Output(before, table, tenths, failed)) == front + [HEADING] + behind;
    LogIsTail(bounds, command, Output(before, table, tenths, failed));
    BarHasNoHeading();
    NoHeadingAppend([first] + Seen(before + "\n"), bar);
    if |behind| < bounds.maxLines {
      RetainedHeading(front, behind, bounds.maxLines);
      LinesParse(first, before, table, tenths, failed);
    } else {
      PushedOut(front, behind, bounds.maxLines);
    }
  }

  lemma {:induction false} PushedOut(front: seq<string>, behind: seq<string>, max: nat)
    requires |behind| >= max
    ensures Tail(front + [HEADING] + behind, max) == Tail(behind, max)
  {
    var a := front + [HEADING];
    assert (a + behind)[|a| + |behind| - max..] == behind[|behind| - max..];
  }

  lemma {:induction false} LogIsTail(bounds: Bounds, command: string, output: string)
    requires TakesLines(bounds)
    ensures RunLines(bounds, Emitted(command, output)) == Tail(Emitted(command, output), bounds.maxLines)
  {
    hide EmitAll, Tail, Emitted, Valid;
    var lines := Emitted(command, output);
    EmittedFit(command, output);
    NewRunIsValid(bounds);
    EmitAllKeepsTail<nat>(NewRun(bounds), lines);
    assert [] + lines == lines;
  }

  lemma {:induction false} EmittedFit(command: string, output: string)
    ensures forall i | 0 <= i < |Emitted(command, output)| :: |Emitted(command, output)[i]| <= MAX_LINE_CHARS
  {
    hide Lines, Universal;
    LinesFit(Universal(output));
    ClipFits("$ " + command, MAX_LINE_CHARS);
    hide Clip;
  }

  lemma {:induction false} ClipFits(line: string, n: nat)
    ensures |Clip(line, n)| <= n
  {
  }

  /** The command line in front of the output changes nothing in what is read. */
  lemma {:induction false} LinesParse(
      first: string, before: string, table: seq<WorkloadResult>, tenths: nat, failed: bool)
    requires |DoneTitle(tenths, failed)| < MAX_LINE_CHARS
    requires !HasHeading([first] + Seen(before + "\n"))
    ensures ParseFrom([first] + Seen(Output(before, table, tenths, failed)), false) == OwnRows(table)
  {
    hide Seen, Output, Contains, RowsIn, DoneTitle, OwnRows;
    var whole := Seen(Output(before, table, tenths, failed));
    assert ([first] + Seen(before + "\n"))[0] == first;
    assert ([first] + Seen(before + "\n"))[1..] == Seen(before + "\n");
    SubseqHasNoHeading([first] + Seen(before + "\n"), 1);
    TableIsOwnRows(before, table, tenths, failed);
    assert ([first] + whole)[1..] == whole;
  }
}
