/** The result table that the workload driver prints and the dashboard reads back. */
module Summary {
  import opened Common
  import opened Text

  const HEADING := "WORKLOAD SUMMARY"
  const RC := ": rc="
  const ELAPSED := " elapsed="
  const DETECTION := " detection="
  const NOT_EVALUATED := "not_evaluated"
  const DASH := " - "

  /** One finished workload; elapsed time in tenths of a second, as it is printed. */
  datatype WorkloadResult = WorkloadResult(name: string, returncode: int, tenths: nat, error: string)

  /** The number written as `whole`, a point and `places` digits with value `fraction`. */
  datatype Decimal = Decimal(whole: nat, fraction: nat, places: nat)

  function Tenths(n: nat): Decimal {
    Decimal(n / 10, n % 10, 1)
  }

  /** One row of a recorded batch. */
  datatype Row = Row(name: string, rc: int, elapsed: Decimal, ok: bool, succeeded: bool, error: string)

  /** The row that stands for a result. */
  function RowOf(r: WorkloadResult): Row {
    Row(r.name, r.returncode, Tenths(r.tenths), r.returncode == 0, r.returncode == 0, r.error)
  }

  // ------------------------------------------------------------------ printing

  function Status(r: WorkloadResult): string {
    if r.returncode == 0 then "[SUCCEEDED] " else "[FAILED] "
  }

  function Elapsed(tenths: nat, rest: string): string {
    PrintNat(tenths / 10) + ("." + ([Digit(tenths % 10)] + ("s" + rest)))
  }

  function Numbers(r: WorkloadResult, rest: string): string {
    PrintInt(r.returncode) + (ELAPSED + Elapsed(r.tenths, DETECTION + (NOT_EVALUATED + rest)))
  }

  /** The line that reports `r`, ending in `rest`. */
  function Line(r: WorkloadResult, rest: string): string {
    Status(r) + (r.name + (RC + Numbers(r, rest)))
  }

  function ErrorPart(error: string): string {
    if error == "" then "" else DASH + error
  }

  function PrintRow(r: WorkloadResult): string {
    Line(r, ErrorPart(r.error))
  }

  // ------------------------------------------------------------------ scanning one line

  predicate NotColon(c: char) {
    c != ':'
  }

  /** The status word: whether it claims success. */
  function ScanStatus(s: string): (r: Scan<bool>)
    ensures r.Match? ==> Suffix(r.rest, s)
  {
    if "[OK] " <= s then Match(true, s[5..])
    else if "[ERR] " <= s then Match(false, s[6..])
    else if "[SUCCEEDED] " <= s then Match(true, s[12..])
    else if "[FAILED] " <= s then Match(false, s[9..])
    else NoMatch
  }

  function ScanName(s: string): (r: Scan<string>)
    ensures r.Match? ==> r.value != "" && All(r.value, NotColon) && Suffix(r.rest, s)
  {
    var n := Span(s, NotColon);
    if n > 0 && RC <= s[n..] then Match(s[..n], s[n + |RC|..]) else NoMatch
  }

  function ScanInt(s: string): (r: Scan<int>)
    ensures r.Match? ==> Suffix(r.rest, s)
  {
    var body := if "-" <= s then s[1..] else s;
    var n := Span(body, IsDigit);
    if n == 0 then NoMatch
    else
      var value: int := ParseNat(body[..n]);
      Match(if "-" <= s then -value else value, body[n..])
  }

  /** Digits with an optional fraction, then the letter s. */
  function ScanElapsed(s: string): (r: Scan<Decimal>)
    ensures r.Match? ==> Suffix(r.rest, s)
  {
    var n := Span(s, IsDigit);
    if n == 0 then NoMatch else
    var whole := ParseNat(s[..n]);
    var rest := s[n..];
    var m := if "." <= rest then Span(rest[1..], IsDigit) else 0;
    if m == 0 then
      if "s" <= rest then Match(Decimal(whole, 0, 0), rest[1..]) else NoMatch
    else
      var more := rest[1 + m..];
      if "s" <= more then Match(Decimal(whole, ParseNat(rest[1..][..m]), m), more[1..]) else NoMatch
  }

  /** The separator and the error text, up to the end of the line; both may be missing. */
  function ScanError(s: string): (r: Scan<string>)
    ensures r.Match? && r.value != "" ==> s == DASH + r.value && All(r.value, NotNewline)
  {
    if s == "" then Match("", "")
    else if DASH <= s && |s| > |DASH| && All(s[|DASH|..], NotNewline) then Match(s[|DASH|..], "")
    else NoMatch
  }

  /** The optional detection word, and the error behind it. */
  function ScanTail(s: string): (r: Scan<string>)
    ensures r.Match? && r.value != "" ==> Suffix(DASH + r.value, s) && All(r.value, NotNewline)
  {
    if DETECTION <= s then
      var word := s[|DETECTION|..];
      var n := Span(word, IsVisible);
      if n == 0 then NoMatch else ScanError(word[n..])
    else ScanError(s)
  }

  datatype Figures = Figures(rc: int, elapsed: Decimal, error: string)

  /** Return code, elapsed seconds and error. */
  function ScanFigures(s: string): Scan<Figures> {
    var rc := ScanInt(s);
    if rc.NoMatch? || !(ELAPSED <= rc.rest) then NoMatch else
    var elapsed := ScanElapsed(rc.rest[|ELAPSED|..]);
    if elapsed.NoMatch? then NoMatch else
    var error := ScanTail(elapsed.rest);
    if error.NoMatch? then NoMatch else Match(Figures(rc.value, elapsed.value, error.value), "")
  }

  function ScanRow(s: string): Option<Row> {
    var claim := ScanStatus(s);
    if claim.NoMatch? then None else
    var name := ScanName(claim.rest);
    if name.NoMatch? then None else
    var figures := ScanFigures(name.rest);
    if figures.NoMatch? then None else
    var Figures(rc, elapsed, error) := figures.value;
    Some(Row(Trim(name.value), rc, elapsed, claim.value && rc == 0, rc == 0, error))
  }

  /** The dashboard's reading of one line of output. */
  function ParseRow(line: string): Option<Row> {
    ScanRow(Trim(line))
  }

  // ------------------------------------------------------------------ one row there and back

  lemma {:induction false} ScanStatusOf(r: WorkloadResult, rest: string)
    ensures ScanStatus(Status(r) + rest) == Match(r.returncode == 0, rest)
  {
    var s := Status(r) + rest;
    assert s[|Status(r)|..] == rest;
    assert s[1] == Status(r)[1];
    assert s[2] == Status(r)[2];
  }

  lemma {:induction false} ScanNameOf(name: string, rest: string)
    requires All(name, NotColon)
    ensures ScanName(name + (RC + rest)) == if name == "" then NoMatch else Match(name, rest)
  {
    var s := name + (RC + rest);
    assert s[..|name|] == name;
    SpanIs(s, |name|, NotColon);
    assert s[|name|..] == RC + rest;
    assert s[|name| + |RC|..] == rest;
  }

  lemma {:induction false} ScanIntOf(n: int, rest: string)
    requires rest == "" || !IsDigit(rest[0])
    ensures ScanInt(PrintInt(n) + rest) == Match(n, rest)
  {
    var digits := PrintNat(if n < 0 then -n else n);
    var s := PrintInt(n) + rest;
    assert n >= 0 ==> s[0] == digits[0];
    var body := if "-" <= s then s[1..] else s;
    assert body == digits + rest;
    assert body[..|digits|] == digits;
    SpanIs(body, |digits|, IsDigit);
    NatRoundTrip(if n < 0 then -n else n);
  }

  lemma {:induction false} ScanElapsedOf(tenths: nat, rest: string)
    ensures ScanElapsed(Elapsed(tenths, rest)) == Match(Tenths(tenths), rest)
  {
    var whole, digit, s := PrintNat(tenths / 10), [Digit(tenths % 10)], Elapsed(tenths, rest);
    assert s[..|whole|] == whole;
    SpanIs(s, |whole|, IsDigit);
    NatRoundTrip(tenths / 10);
    var more := s[|whole|..];
    assert more == "." + (digit + ("s" + rest));
    assert more[1..] == digit + ("s" + rest);
    SpanIs(more[1..], 1, IsDigit);
    assert more[1..][..1] == digit;
    assert more[2..] == "s" + rest;
    assert ("s" + rest)[1..] == rest;
    assert ParseNat(digit) == tenths % 10 by {
      assert digit[..0] == "";
    }
  }

  lemma {:induction false} ScanTailOf(error: string)
    requires error == "" || IsSpace(error[0])
    ensures ScanTail(DETECTION + (NOT_EVALUATED + error)) == ScanError(error)
  {
    var word := NOT_EVALUATED + error;
    assert (DETECTION + word)[|DETECTION|..] == word;
    assert word[..|NOT_EVALUATED|] == NOT_EVALUATED;
    SpanIs(word, |NOT_EVALUATED|, IsVisible);
    assert word[|NOT_EVALUATED|..] == error;
  }

  lemma {:induction false} FiguresFromParts(s: string, rc: int, a: string, elapsed: Decimal, b: string)
    requires ScanInt(s) == Match(rc, ELAPSED + a)
    requires ScanElapsed(a) == Match(elapsed, b)
    ensures ScanTail(b).NoMatch? ==> ScanFigures(s).NoMatch?
    ensures ScanTail(b).Match? ==> ScanFigures(s) == Match(Figures(rc, elapsed, ScanTail(b).value), "")
  {
  }

  lemma {:induction false} ScanFiguresOf(r: WorkloadResult, error: string)
    requires error == "" || IsSpace(error[0])
    ensures ScanError(error).NoMatch? ==> ScanFigures(Numbers(r, error)).NoMatch?
    ensures ScanError(error).Match? ==>
              ScanFigures(Numbers(r, error))
              == Match(Figures(r.returncode, Tenths(r.tenths), ScanError(error).value), "")
  {
    var tail := DETECTION + (NOT_EVALUATED + error);
    var elapsed := Elapsed(r.tenths, tail);
    ScanIntOf(r.returncode, ELAPSED + elapsed);
    ScanElapsedOf(r.tenths, tail);
    FiguresFromParts(Numbers(r, error), r.returncode, elapsed, Tenths(r.tenths), tail);
    ScanTailOf(error);
  }

  lemma {:induction false} RowFromParts(s: string, claim: bool, a: string, name: string, b: string)
    requires ScanStatus(s) == Match(claim, a)
    requires ScanName(a) == Match(name, b)
    ensures ScanFigures(b).NoMatch? ==> ScanRow(s).None?
    ensures ScanFigures(b).Match? ==>
              var Figures(rc, elapsed, error) := ScanFigures(b).value;
              ScanRow(s) == Some(Row(Trim(name), rc, elapsed, claim && rc == 0, rc == 0, error))
  {
  }

  /** Everything before the error is read back as printed. */
  lemma {:induction false} ScanLineOf(r: WorkloadResult, error: string)
    requires r.name != "" && All(r.name, NotColon)
    requires error == "" || IsSpace(error[0])
    ensures ScanError(error).NoMatch? ==> ScanRow(Line(r, error)).None?
    ensures ScanError(error).Match? ==>
              ScanRow(Line(r, error)) == Some(RowOf(r).(name := Trim(r.name), error := ScanError(error).value))
  {
    var figures := Numbers(r, error);
    ScanStatusOf(r, r.name + (RC + figures));
    ScanNameOf(r.name, figures);
    RowFromParts(Line(r, error), r.returncode == 0, r.name + (RC + figures), r.name, figures);
    ScanFiguresOf(r, error);
  }

  /** A line starts and its fixed part ends in a visible character; stripping reaches the error only. */
  lemma {:induction false} TrimLine(r: WorkloadResult, error: string)
    ensures Trim(Line(r, error)) == Line(r, TrimRight(error))
  {
    LineAppend(r, error);
    LineAppend(r, TrimRight(error));
    var head := Line(r, "");
    TrimAfterHead(head, error);
  }

  lemma {:induction false} LineAppend(r: WorkloadResult, rest: string)
    ensures Line(r, rest) == Line(r, "") + rest
    ensures var head := Line(r, ""); !IsSpace(head[0]) && !IsSpace(head[|head| - 1])
  {
    var d, d' := NOT_EVALUATED + "", NOT_EVALUATED + rest;
    assert d' == d + rest && d[|d| - 1] == 'd';
    var e, e' := DETECTION + d, DETECTION + d';
    assert e' == e + rest && e[|e| - 1] == 'd';
    var t, t' := "s" + e, "s" + e';
    assert t' == t + rest && t[|t| - 1] == 'd';
    ElapsedAppend(r.tenths, e, rest);
    NumbersAppend(r, rest);
    var n, n' := RC + Numbers(r, ""), RC + Numbers(r, rest);
    assert n' == n + rest;
    assert r.name + n' == (r.name + n) + rest;
    var head := Line(r, "");
    assert Line(r, rest) == head + rest;
    assert head[0] == Status(r)[0];
    assert head[|head| - 1] == Numbers(r, "")[|Numbers(r, "")| - 1];
  }

  lemma {:induction false} ElapsedAppend(tenths: nat, e: string, rest: string)
    ensures Elapsed(tenths, e + rest) == Elapsed(tenths, e) + rest
    ensures e != "" ==> Elapsed(tenths, e)[|Elapsed(tenths, e)| - 1] == e[|e| - 1]
  {
  }

  lemma {:induction false} NumbersAppend(r: WorkloadResult, rest: string)
    ensures Numbers(r, rest) == Numbers(r, "") + rest
    ensures Numbers(r, "")[|Numbers(r, "")| - 1] == 'd'
  {
  }

  /** What one printed line keeps: a stripped, colon-free name and a one-line error without trailing space. */
  predicate Clean(r: WorkloadResult) {
    && r.name != "" && !IsSpace(r.name[0]) && !IsSpace(r.name[|r.name| - 1]) && All(r.name, NotColon)
    && (r.error != "" ==> !IsSpace(r.error[|r.error| - 1]) && All(r.error, NotNewline))
  }

  lemma {:induction false} ErrorPartScans(error: string)
    requires error != "" ==> !IsSpace(error[|error| - 1]) && All(error, NotNewline)
    ensures TrimRight(ErrorPart(error)) == ErrorPart(error)
    ensures ScanError(ErrorPart(error)) == Match(error, "")
  {
  }

  lemma {:induction false} RowRoundTrip(r: WorkloadResult)
    requires Clean(r)
    ensures ParseRow(PrintRow(r)) == Some(RowOf(r))
  {
    ErrorPartScans(r.error);
    TrimLine(r, ErrorPart(r.error));
    ScanLineOf(r, ErrorPart(r.error));
  }

  /** The error text ends the line, behind its separator and at least the brackets of a status. */
  lemma {:induction false} FiguresErrorIsSuffix(s: string)
    requires ScanFigures(s).Match? && ScanFigures(s).value.error != ""
    ensures var error := ScanFigures(s).value.error; Suffix(DASH + error, s) && All(error, NotNewline)
  {
    var rc := ScanInt(s);
    var a := rc.rest[|ELAPSED|..];
    var elapsed := ScanElapsed(a);
    var error := ScanTail(elapsed.rest).value;
    SuffixTransitive(DASH + error, elapsed.rest, a);
    SuffixTransitive(DASH + error, a, rc.rest);
    SuffixTransitive(DASH + error, rc.rest, s);
  }

  lemma {:induction false} RowErrorIsSuffix(s: string)
    requires ScanRow(s).Some? && ScanRow(s).value.error != ""
    ensures var error := ScanRow(s).value.error; Suffix(DASH + error, s) && All(error, NotNewline)
  {
    var claim := ScanStatus(s);
    var name := ScanName(claim.rest);
    var error := ScanFigures(name.rest).value.error;
    FiguresErrorIsSuffix(name.rest);
    SuffixTransitive(DASH + error, name.rest, claim.rest);
    SuffixTransitive(DASH + error, claim.rest, s);
  }

  /** Whatever line it came from, a recorded name is stripped and has no colon. */
  lemma {:induction false} ParsedNameIsClean(line: string)
    requires ParseRow(line).Some?
    ensures var name := ParseRow(line).value.name;
            All(name, NotColon) && (name != "" ==> !IsSpace(name[0]) && !IsSpace(name[|name| - 1]))
  {
    hide ScanStatus, ScanName, ScanFigures, Trim, IsSpace, Suffix;
    TrimKeepsCharacters(ScanName(ScanStatus(Trim(line)).rest).value, NotColon);
  }

  /** Whatever line it came from, a recorded error is one line and does not end in white space. */
  lemma {:induction false} ParsedErrorIsClean(line: string)
    requires ParseRow(line).Some? && ParseRow(line).value.error != ""
    ensures var error := ParseRow(line).value.error;
            !IsSpace(error[|error| - 1]) && All(error, NotNewline)
  {
    hide ScanRow, Trim, IsSpace;
    var s, error := Trim(line), ParseRow(line).value.error;
    RowErrorIsSuffix(s);
    assert (DASH + error)[|DASH + error| - 1] == s[|s| - 1];
  }

  /** Printing and reading back one row is exact for the clean results and for no others. */
  lemma {:induction false} RowRoundTripIff(r: WorkloadResult)
    ensures ParseRow(PrintRow(r)) == Some(RowOf(r)) <==> Clean(r)
  {
    hide ParseRow, PrintRow, IsSpace, All;
    if Clean(r) {
      RowRoundTrip(r);
    } else if ParseRow(PrintRow(r)) == Some(RowOf(r)) {
      ParsedNameIsClean(PrintRow(r));
      if r.error != "" {
        ParsedErrorIsClean(PrintRow(r));
      }
      assert r.name == "";
      EmptyNameUnread(r);
    }
  }

  lemma {:induction false} EmptyNameUnread(r: WorkloadResult)
    requires r.name == ""
    ensures ParseRow(PrintRow(r)) == None
  {
    var figures := Numbers(r, TrimRight(ErrorPart(r.error)));
    TrimLine(r, ErrorPart(r.error));
    ScanStatusOf(r, r.name + (RC + figures));
    ScanNameOf(r.name, figures);
  }
}
