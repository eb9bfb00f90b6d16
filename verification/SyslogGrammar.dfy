/** Which records the parser accepts: headers with any white space between their words, and bodies. */
module SyslogGrammar {
  import opened Common
  import opened Text
  import opened StructuredData
  import opened SyslogParser
  import opened SyslogRoundTrip

  // ------------------------------------------------------------------ words and gaps

  /** A word and the white space behind it. */
  datatype Spaced = Spaced(word: string, gap: string)

  predicate GoodSpaced(w: Spaced) {
    Word(w.word) && w.gap != "" && All(w.gap, IsSpace)
  }

  function SpacedText(w: Spaced, rest: string): string {
    w.word + (w.gap + rest)
  }

  /** Nothing, or a visible character first. */
  predicate Visibly(s: string) {
    s == "" || !IsSpace(s[0])
  }

  lemma {:induction false} TokenIff(s: string, w: Spaced, rest: string)
    requires GoodSpaced(w) && Visibly(rest)
    ensures ScanToken(SpacedText(w, rest)) == Match(w.word, rest)
  {
    assert IsSpace(w.gap[0]);
    SpanThen(w.word, w.gap + rest, IsVisible);
    SpanThen(w.gap, rest, IsSpace);
    hide Span, All, IsSpace;
  }

  lemma {:induction false} TokenIs(s: string) returns (w: Spaced)
    requires ScanToken(s).Match?
    ensures GoodSpaced(w) && w.word == ScanToken(s).value && Visibly(ScanToken(s).rest)
    ensures s == SpacedText(w, ScanToken(s).rest)
  {
    hide IsSpace;
    var n := Span(s, IsVisible);
    var m := Span(s[n..], IsSpace);
    w := Spaced(s[..n], s[n..][..m]);
    assert s == s[..n] + s[n..] && s[n..] == s[n..][..m] + s[n..][m..];
  }

  function WordsOf(ws: seq<Spaced>, rest: string): string {
    if ws == [] then rest else SpacedText(ws[0], WordsOf(ws[1..], rest))
  }

  predicate GoodWords(ws: seq<Spaced>) {
    forall i | 0 <= i < |ws| :: GoodSpaced(ws[i])
  }

  lemma {:induction false} WordsVisibly(ws: seq<Spaced>, rest: string)
    requires GoodWords(ws) && Visibly(rest)
    ensures Visibly(WordsOf(ws, rest))
  {
    if ws != [] {
      assert GoodSpaced(ws[0]);
      assert WordsOf(ws, rest)[0] == ws[0].word[0];
    }
  }

  lemma {:induction false} SkipOf(ws: seq<Spaced>, rest: string)
    requires GoodWords(ws) && Visibly(rest)
    ensures SkipTokens(WordsOf(ws, rest), |ws|) == Match((), rest)
    decreases ws
  {
    hide GoodSpaced, ScanToken, SpacedText, Visibly;
    if ws != [] {
      WordsVisibly(ws[1..], rest);
      assert GoodSpaced(ws[0]);
      TokenIff("", ws[0], WordsOf(ws[1..], rest));
      SkipOf(ws[1..], rest);
    }
  }

  lemma {:induction false} SkipIs(s: string, n: nat) returns (ws: seq<Spaced>)
    requires SkipTokens(s, n).Match? && Visibly(s)
    ensures GoodWords(ws) && |ws| == n && s == WordsOf(ws, SkipTokens(s, n).rest) && Visibly(SkipTokens(s, n).rest)
    decreases n
  {
    hide GoodSpaced, ScanToken, SpacedText, Visibly;
    ws := [];
    if n > 0 {
      var w := TokenIs(s);
      var more := SkipIs(ScanToken(s).rest, n - 1);
      ws := [w] + more;
      assert ws[1..] == more;
    }
  }

  // ------------------------------------------------------------------ headers

  /** Priority, version with its gap, four words, and the message id with its gap. */
  datatype Prefix = Prefix(priority: string, version: Spaced, words: seq<Spaced>, msgid: Spaced)

  /** Digits without a leading zero. */
  predicate IsNumber(s: string) {
    s != "" && s[0] in "123456789" && forall i | 0 <= i < |s| :: s[i] in "0123456789"
  }

  lemma {:induction false} VersionIsNumber(s: string)
    ensures IsVersion(s) <==> IsNumber(s)
  {
  }

  predicate GoodPrefix(p: Prefix) {
    && 0 < |p.priority| <= 3 && All(p.priority, IsDigit)
    && GoodSpaced(p.version) && IsNumber(p.version.word) && |p.words| == 4 && GoodWords(p.words) && GoodSpaced(p.msgid)
  }

  function PrefixText(p: Prefix, body: string): string {
    "<" + (p.priority + (">" + SpacedText(p.version, WordsOf(p.words, SpacedText(p.msgid, body)))))
  }

  lemma {:induction false} SpacedVisibly(w: Spaced, rest: string)
    requires GoodSpaced(w)
    ensures Visibly(SpacedText(w, rest))
  {
  }

  lemma {:induction false} HeaderOf(p: Prefix, body: string)
    requires GoodPrefix(p) && Visibly(body) && All(body, NotNewline)
    ensures ScanHeader(PrefixText(p, body)) == Match(p.msgid.word, body)
  {
    hide GoodSpaced, ScanToken, SkipTokens, ScanPriority, SpacedText, WordsOf, Visibly, IsVersion, IsNumber, All,
         IsDigit;
    var last := SpacedText(p.msgid, body);
    var words := WordsOf(p.words, last);
    VersionIsNumber(p.version.word);
    SpacedVisibly(p.msgid, body);
    WordsVisibly(p.words, last);
    ScanPriorityOf(p.priority, SpacedText(p.version, words));
    TokenIff("", p.version, words);
    SkipOf(p.words, last);
    TokenIff("", p.msgid, body);
  }

  lemma {:induction false} PriorityIs(s: string)
    requires ScanPriority(s).Match?
    ensures var r := ScanPriority(s); r.value != "" && All(r.value, IsDigit) && s == "<" + (r.value + (">" + r.rest))
  {
    hide IsDigit;
    var n := Span(s[1..], IsDigit);
    var t := s[1..];
    assert t == t[..n] + (">" + t[n + 1..]);
    assert s == "<" + t;
  }

  lemma {:induction false} HeaderIs(s: string) returns (p: Prefix)
    requires ScanHeader(s).Match?
    ensures GoodPrefix(p) && p.msgid.word == ScanHeader(s).value && s == PrefixText(p, ScanHeader(s).rest)
    ensures Visibly(ScanHeader(s).rest) && All(ScanHeader(s).rest, NotNewline)
  {
    hide GoodSpaced, ScanToken, SkipTokens, ScanPriority, SpacedText, WordsOf, Visibly, IsVersion, IsNumber, All,
         IsDigit;
    PriorityIs(s);
    var priority := ScanPriority(s);
    var version := TokenIs(priority.rest);
    var after := ScanToken(priority.rest).rest;
    var words := SkipIs(after, 4);
    var msgid := TokenIs(SkipTokens(after, 4).rest);
    VersionIsNumber(version.word);
    p := Prefix(priority.value, version, words, msgid);
  }

  /** A text is read as a header with that id and body iff it is the text of a well-formed one in front of that body. */
  lemma {:induction false} HeaderIff(s: string, id: string, body: string)
    ensures ScanHeader(s) == Match(id, body) <==>
            && Visibly(body) && All(body, NotNewline)
            && exists p: Prefix :: GoodPrefix(p) && p.msgid.word == id && s == PrefixText(p, body)
  {
    hide ScanHeader, GoodPrefix, PrefixText, Visibly, All;
    if ScanHeader(s) == Match(id, body) {
      var p := HeaderIs(s);
    }
    if p: Prefix :|
       Visibly(body) && All(body, NotNewline) && GoodPrefix(p) && p.msgid.word == id && s == PrefixText(p, body) {
      HeaderOf(p, body);
    }
  }

  /** A number in angle brackets, digits, and a rest that starts with white space. */
  predicate IsClaim(s: string, priority: string, version: string, rest: string) {
    && s == "<" + (priority + (">" + (version + rest))) && priority != "" && All(priority, IsDigit)
    && version != "" && All(version, IsDigit) && rest != "" && IsSpace(rest[0])
  }

  lemma {:induction false} ClaimOf(s: string, priority: string, version: string, rest: string)
    requires IsClaim(s, priority, version, rest)
    ensures ClaimsHeader(s)
  {
    hide IsDigit, IsSpace, ScanPriority, Span;
    ScanPriorityOf(priority, version + rest);
    SpacesAreNoDigits(rest[0]);
    SpanThen(version, rest, IsDigit);
    assert (version + rest)[|version|] == rest[0];
  }

  lemma {:induction false} ClaimIs(s: string) returns (priority: string, version: string, rest: string)
    requires ClaimsHeader(s)
    ensures IsClaim(s, priority, version, rest)
  {
    hide IsDigit, IsSpace, ScanPriority;
    PriorityIs(s);
    var t := ScanPriority(s).rest;
    var n := Span(t, IsDigit);
    priority, version, rest := ScanPriority(s).value, t[..n], t[n..];
    assert t == version + rest && rest[0] == t[n];
  }

  /** A text claims to be a record iff it starts with a number in angle brackets, digits and white space. */
  lemma {:induction false} ClaimIff(s: string)
    ensures ClaimsHeader(s) <==>
            exists priority: string, version: string, rest: string :: IsClaim(s, priority, version, rest)
  {
    hide ClaimsHeader, IsClaim;
    if ClaimsHeader(s) {
      var priority, version, rest := ClaimIs(s);
    }
    if priority: string, version: string, rest: string :| IsClaim(s, priority, version, rest) {
      ClaimOf(s, priority, version, rest);
    }
  }

  lemma {:induction false} SpacesAreNoDigits(c: char)
    requires IsSpace(c)
    ensures !IsDigit(c)
  {
  }

  // ------------------------------------------------------------------ bodies

  /** Well-formed elements, at least one, and nothing or a space behind them. */
  ghost predicate IsStructured(body: string, es: seq<Element>, rest: string) {
    es != [] && GoodElements(es) && Detached(rest) && body == ElementsText(es, rest)
  }

  predicate IsNil(body: string) {
    body == "-" || "- " <= body
  }

  /** A body is accepted iff it is the nil value or starts with well-formed elements; their texts hold the fields. */
  lemma {:induction false} BodyIff(body: string, text: string)
    ensures StructuredText(body) == Some(text) <==>
            if IsNil(body) then text == ""
            else exists es: seq<Element>, rest: string :: IsStructured(body, es, rest) && text == Joined(es)
  {
    hide ScanElements, GoodElements, ElementsText, Joined;
    if !IsNil(body) {
      if StructuredText(body) == Some(text) {
        var r := ScanElements(body);
        ElementsIff(body, r.value, r.rest);
        assert IsStructured(body, r.value, r.rest);
      }
      if es: seq<Element>, rest: string :| IsStructured(body, es, rest) && text == Joined(es) {
        ElementsIff(body, es, rest);
      }
    }
  }

  /** A record's event, exactly: a header with a tag for its id, and an accepted body. */
  lemma {:induction false} RecordIff(line: string, time: real, c: Conversions)
    requires var s := Trim(line); s != "" && ClaimsHeader(s)
    ensures match ScanHeader(Trim(line))
            case NoMatch => ParseLine(line, time, c) == None
            case Match(id, body) =>
              if IsTag(id) && StructuredText(body).Some?
              then ParseLine(line, time, c)
                   == Some(EventOf(Record(id, StructuredText(body).value), Trim(line), time, c))
              else ParseLine(line, time, c) == None
  {
    hide ScanHeader, ClaimsHeader, IsTag, StructuredText, EventOf, Trim;
  }

  // ------------------------------------------------------------------ values

  /** No backslash that is followed by one of the three characters that can be escaped. */
  predicate Unescaped(s: string) {
    forall i | 0 <= i < |s| - 1 :: s[i] == '\\' ==> !IsSpecial(s[i + 1])
  }

  /** Any other backslash stays. */
  lemma {:induction false} OthersStay(s: string)
    requires Unescaped(s)
    ensures Unescape(s) == s
  {
    if s != "" {
      OthersStay(s[1..]);
    }
  }

  lemma {:induction false} UnescapeAppend(a: string, b: string)
    requires a == "" || a[|a| - 1] != '\\'
    ensures Unescape(a + b) == Unescape(a) + Unescape(b)
    decreases |a|
  {
    var s := a + b;
    if a == "" {
      assert s == b;
    } else if |a| >= 2 && a[0] == '\\' && IsSpecial(a[1]) {
      assert s[0] == a[0] && s[1] == a[1] && s[2..] == a[2..] + b;
      if |a| == 2 {
        assert a[2..] + b == b;
        assert Unescape(a) == [a[1]] + Unescape("");
      } else {
        UnescapeAppend(a[2..], b);
      }
    } else {
      assert s[0] == a[0] && s[1..] == a[1..] + b;
      assert |a| >= 2 ==> s[1] == a[1];
      UnescapeAppend(a[1..], b);
    }
  }

  predicate NoQuote(c: char) {
    c != '"' && c != '\\'
  }

  predicate NotClosing(c: char) {
    c != ']'
  }

  /** Text without quote and backslash is closed by the next quote; within an element only if it has no bracket. */
  lemma {:induction false} PlainValueEnds(raw: string)
    requires All(raw, NoQuote)
    ensures QuotedEnd(raw + "\"", false) == Some(|raw|)
    ensures QuotedEnd(raw + "\"", true) == if All(raw, NotClosing) then Some(|raw|) else None
  {
    var s := raw + "\"";
    if raw != "" {
      assert s[0] == raw[0] && s[1..] == raw[1..] + "\"";
      PlainValueEnds(raw[1..]);
    }
  }
}
