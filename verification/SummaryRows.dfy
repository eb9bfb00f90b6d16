/** Which lines the dashboard reads as rows of a result table, in all the forms it knows. */
module SummaryRows {
  import opened Common
  import opened Text
  import opened Summary

  /** The parts of a row: older ones have another status word, no detection word, or whole seconds. */
  datatype Parts = Parts(
    status: string, name: string, minus: bool, code: string, whole: string, fraction: Option<string>,
    detection: Option<string>, error: Option<string>)

  predicate Digits(s: string) {
    s != "" && All(s, IsDigit)
  }

  predicate Claims(status: string) {
    status == "[OK] " || status == "[SUCCEEDED] "
  }

  predicate GoodStatus(status: string) {
    Claims(status) || status == "[ERR] " || status == "[FAILED] "
  }

  predicate GoodParts(p: Parts) {
    && GoodStatus(p.status) && p.name != "" && All(p.name, NotColon)
    && Digits(p.code) && Digits(p.whole) && (p.fraction.Some? ==> Digits(p.fraction.value))
    && (p.detection.Some? ==> p.detection.value != "" && All(p.detection.value, IsVisible))
    && (p.error.Some? ==> p.error.value != "" && All(p.error.value, NotNewline))
  }

  function ErrorText(error: Option<string>): string {
    match error case None => "" case Some(e) => DASH + e
  }

  function TailText(detection: Option<string>, rest: string): string {
    match detection case None => rest case Some(word) => DETECTION + (word + rest)
  }

  function SecondsText(whole: string, fraction: Option<string>, rest: string): string {
    whole + match fraction case None => "s" + rest case Some(f) => "." + (f + ("s" + rest))
  }

  function CodeText(minus: bool, code: string, rest: string): string {
    if minus then "-" + (code + rest) else code + rest
  }

  function FiguresText(p: Parts): string {
    CodeText(p.minus, p.code,
             ELAPSED + SecondsText(p.whole, p.fraction, TailText(p.detection, ErrorText(p.error))))
  }

  function RowText(p: Parts): string {
    p.status + (p.name + (RC + FiguresText(p)))
  }

  function CodeOf(minus: bool, code: string): int
    requires All(code, IsDigit)
  {
    if minus then -(ParseNat(code) as int) else ParseNat(code)
  }

  function SecondsOf(whole: string, fraction: Option<string>): Decimal
    requires All(whole, IsDigit) && (fraction.Some? ==> All(fraction.value, IsDigit))
  {
    match fraction
    case None => Decimal(ParseNat(whole), 0, 0)
    case Some(f) => Decimal(ParseNat(whole), ParseNat(f), |f|)
  }

  /** What a row says: it is ok only if its status claims so and its code is zero. */
  predicate Says(row: Row, p: Parts)
    requires GoodParts(p)
  {
    var code := CodeOf(p.minus, p.code);
    && row.name == Trim(p.name) && row.rc == code && row.elapsed == SecondsOf(p.whole, p.fraction)
    && (row.ok <==> Claims(p.status) && code == 0) && (row.succeeded <==> code == 0)
    && row.error == match p.error case None => "" case Some(e) => e
  }

  // ------------------------------------------------------------------ every such text is read

  lemma {:induction false} StatusIsRead(status: string, rest: string)
    requires GoodStatus(status)
    ensures ScanStatus(status + rest) == Match(Claims(status), rest)
  {
    var s := status + rest;
    assert s[|status|..] == rest;
    assert s[1] == status[1] && s[2] == status[2];
  }

  lemma {:induction false} CodeIsRead(minus: bool, code: string, rest: string)
    requires Digits(code) && (rest == "" || !IsDigit(rest[0]))
    ensures ScanInt(CodeText(minus, code, rest)) == Match(CodeOf(minus, code), rest)
  {
    var s := CodeText(minus, code, rest);
    var body := code + rest;
    assert body[..|code|] == code && body[|code|..] == rest;
    SpanIs(body, |code|, IsDigit);
    if minus {
      assert s[1..] == body;
    } else {
      assert s[0] == code[0];
    }
  }

  lemma {:induction false} WholeIsRead(whole: string, more: string)
    requires Digits(whole) && (more == "" || !IsDigit(more[0]))
    ensures Span(whole + more, IsDigit) == |whole|
    ensures (whole + more)[..|whole|] == whole && (whole + more)[|whole|..] == more
  {
    assert (whole + more)[..|whole|] == whole;
    SpanIs(whole + more, |whole|, IsDigit);
  }

  lemma {:induction false} SecondsAreRead(whole: string, fraction: Option<string>, rest: string)
    requires Digits(whole) && (fraction.Some? ==> Digits(fraction.value))
    ensures ScanElapsed(SecondsText(whole, fraction, rest)) == Match(SecondsOf(whole, fraction), rest)
  {
    hide Span, ParseNat;
    var end := "s" + rest;
    assert end[1..] == rest;
    match fraction
    case None => WholeIsRead(whole, end);
    case Some(f) =>
      var more := "." + (f + end);
      WholeIsRead(whole, more);
      assert more[1..] == f + end;
      WholeIsRead(f, end);
      assert more[1 + |f|..] == end;
  }

  lemma {:induction false} TailIsRead(detection: Option<string>, error: Option<string>)
    requires detection.Some? ==> detection.value != "" && All(detection.value, IsVisible)
    requires error.Some? ==> error.value != "" && All(error.value, NotNewline)
    ensures ScanTail(TailText(detection, ErrorText(error))) == Match(match error case None => "" case Some(e) => e, "")
  {
    hide Span;
    var rest := ErrorText(error);
    assert error.Some? ==> rest[|DASH|..] == error.value && rest[1] == '-';
    match detection
    case None => assert DETECTION[1] == 'd';
    case Some(word) =>
      var s := DETECTION + (word + rest);
      assert s[|DETECTION|..] == word + rest;
      assert (word + rest)[..|word|] == word && (word + rest)[|word|..] == rest;
      SpanIs(word + rest, |word|, IsVisible);
  }

  lemma {:induction false} FiguresAreRead(p: Parts)
    requires GoodParts(p)
    ensures ScanFigures(FiguresText(p)) ==
            Match(Figures(CodeOf(p.minus, p.code), SecondsOf(p.whole, p.fraction),
                          match p.error case None => "" case Some(e) => e), "")
  {
    hide ScanInt, ScanElapsed, ScanTail, CodeText, SecondsText, TailText, IsDigit;
    var tail := TailText(p.detection, ErrorText(p.error));
    var seconds := SecondsText(p.whole, p.fraction, tail);
    assert !IsDigit((ELAPSED + seconds)[0]) by { BlankIsNoDigit(); }
    CodeIsRead(p.minus, p.code, ELAPSED + seconds);
    SecondsAreRead(p.whole, p.fraction, tail);
    TailIsRead(p.detection, p.error);
    FiguresFromParts(FiguresText(p), CodeOf(p.minus, p.code), seconds, SecondsOf(p.whole, p.fraction), tail);
  }

  lemma {:induction false} BlankIsNoDigit()
    ensures !IsDigit(' ')
  {
  }

  lemma {:induction false} RowIsRead(p: Parts)
    requires GoodParts(p)
    ensures ScanRow(RowText(p)).Some? && Says(ScanRow(RowText(p)).value, p)
  {
    hide ScanStatus, ScanName, ScanFigures, FiguresText, Trim, CodeOf, SecondsOf;
    StatusIsRead(p.status, p.name + (RC + FiguresText(p)));
    ScanNameOf(p.name, FiguresText(p));
    FiguresAreRead(p);
    RowFromParts(RowText(p), Claims(p.status), p.name + (RC + FiguresText(p)), p.name, FiguresText(p));
  }

  // ------------------------------------------------------------------ and no other text is

  lemma {:induction false} StatusIs(s: string) returns (status: string)
    requires ScanStatus(s).Match?
    ensures GoodStatus(status) && Claims(status) == ScanStatus(s).value && s == status + ScanStatus(s).rest
  {
    status := if "[OK] " <= s then "[OK] " else if "[ERR] " <= s then "[ERR] "
              else if "[SUCCEEDED] " <= s then "[SUCCEEDED] " else "[FAILED] ";
  }

  lemma {:induction false} CodeIs(s: string) returns (minus: bool, code: string)
    requires ScanInt(s).Match?
    ensures Digits(code) && ScanInt(s).value == CodeOf(minus, code) && s == CodeText(minus, code, ScanInt(s).rest)
  {
    minus := "-" <= s;
    var body := if minus then s[1..] else s;
    var n := Span(body, IsDigit);
    code := body[..n];
    assert body == body[..n] + body[n..];
    assert minus ==> s == "-" + body;
  }

  lemma {:induction false} FractionIs(rest: string, m: nat)
    requires "." <= rest && m > 0 && 1 + m <= |rest| && "s" <= rest[1 + m..]
    ensures rest == "." + (rest[1..][..m] + ("s" + rest[1 + m..][1..]))
  {
    var more := rest[1 + m..];
    assert more == "s" + more[1..];
    assert rest[1..] == rest[1..][..m] + more;
  }

  lemma {:induction false} SecondsIs(s: string) returns (whole: string, fraction: Option<string>)
    requires ScanElapsed(s).Match?
    ensures Digits(whole) && (fraction.Some? ==> Digits(fraction.value))
    ensures ScanElapsed(s).value == SecondsOf(whole, fraction)
    ensures s == SecondsText(whole, fraction, ScanElapsed(s).rest)
  {
    hide IsDigit, ParseNat, Span;
    var n := Span(s, IsDigit);
    whole := s[..n];
    var rest := s[n..];
    assert s == whole + rest;
    var m := if "." <= rest then Span(rest[1..], IsDigit) else 0;
    if m == 0 {
      fraction := None;
      assert rest == "s" + rest[1..];
    } else {
      fraction := Some(rest[1..][..m]);
      FractionIs(rest, m);
    }
  }

  lemma {:induction false} ErrorIs(s: string) returns (error: Option<string>)
    requires ScanError(s).Match?
    ensures error.Some? ==> error.value != "" && All(error.value, NotNewline)
    ensures s == ErrorText(error) && ScanError(s).value == match error case None => "" case Some(e) => e
  {
    error := if s == "" then None else Some(s[|DASH|..]);
  }

  lemma {:induction false} TailIs(s: string) returns (detection: Option<string>, error: Option<string>)
    requires ScanTail(s).Match?
    ensures detection.Some? ==> detection.value != "" && All(detection.value, IsVisible)
    ensures error.Some? ==> error.value != "" && All(error.value, NotNewline)
    ensures s == TailText(detection, ErrorText(error))
    ensures ScanTail(s).value == match error case None => "" case Some(e) => e
  {
    hide ScanError, ErrorText;
    if DETECTION <= s {
      var word := s[|DETECTION|..];
      var n := Span(word, IsVisible);
      detection := Some(word[..n]);
      assert word == word[..n] + word[n..] && s == DETECTION + word;
      error := ErrorIs(word[n..]);
    } else {
      detection := None;
      error := ErrorIs(s);
    }
  }

  lemma {:induction false} NameIs(s: string)
    requires ScanName(s).Match?
    ensures var r := ScanName(s); r.value != "" && All(r.value, NotColon) && s == r.value + (RC + r.rest)
  {
    var n := Span(s, NotColon);
    assert s == s[..n] + s[n..] && s[n..] == RC + s[n + |RC|..];
  }

  lemma {:induction false} RowIs(s: string) returns (p: Parts)
    requires ScanRow(s).Some?
    ensures GoodParts(p) && s == RowText(p)
  {
    hide ScanStatus, ScanName, ScanInt, ScanElapsed, ScanTail, CodeText, SecondsText, TailText, ErrorText, Trim, Digits,
         GoodStatus, All, CodeOf, SecondsOf;
    var status := StatusIs(s);
    var a := ScanStatus(s).rest;
    NameIs(a);
    var b := ScanName(a).rest;
    var minus, code := CodeIs(b);
    var c := ScanInt(b).rest;
    var d := c[|ELAPSED|..];
    assert c == ELAPSED + d;
    var whole, fraction := SecondsIs(d);
    var detection, error := TailIs(ScanElapsed(d).rest);
    p := Parts(status, ScanName(a).value, minus, code, whole, fraction, detection, error);
  }

  /** A stripped line is read as a row iff it is the text of one, and the row says what the text says. */
  lemma {:induction false} RowIff(s: string, row: Row)
    ensures ScanRow(s) == Some(row) <==> exists p: Parts :: GoodParts(p) && s == RowText(p) && Says(row, p)
  {
    hide ScanRow, GoodParts, RowText, Trim, CodeOf, SecondsOf, Claims;
    if ScanRow(s) == Some(row) {
      var p := RowIs(s);
      RowIsRead(p);
    }
    if p: Parts :| GoodParts(p) && s == RowText(p) && Says(row, p) {
      RowIsRead(p);
    }
  }
}
