/** What the parser reads from the records that the grammar prints. */
module SyslogRoundTrip {
  import opened Common
  import opened Text
  import opened Telemetry
  import opened StructuredData
  import opened SyslogParser

  // ------------------------------------------------------------------ the header

  datatype Header = Header(priority: string, version: string, time: string, host: string, app: string, process: string,
                           msgid: string)

  predicate Word(s: string) {
    s != "" && All(s, IsVisible)
  }

  predicate GoodHeader(h: Header) {
    && 0 < |h.priority| <= 3 && All(h.priority, IsDigit) && IsVersion(h.version)
    && Word(h.time) && Word(h.host) && Word(h.app) && Word(h.process) && Word(h.msgid)
  }

  function TokenText(word: string, rest: string): string {
    word + (" " + rest)
  }

  function WordsText(h: Header, rest: string): string {
    TokenText(h.time, TokenText(h.host, TokenText(h.app, TokenText(h.process, TokenText(h.msgid, rest)))))
  }

  function HeaderText(h: Header, body: string): string {
    "<" + (h.priority + (">" + TokenText(h.version, WordsText(h, body))))
  }

  predicate Begins(s: string) {
    s != "" && !IsSpace(s[0])
  }

  lemma {:induction false} ScanTokenOf(word: string, rest: string)
    requires Word(word) && Begins(rest)
    ensures ScanToken(TokenText(word, rest)) == Match(word, rest) && Begins(TokenText(word, rest))
  {
    var s := " " + rest;
    assert s[0] == ' ' && IsSpace(s[0]);
    SpanThen(word, s, IsVisible);
    SpanThen(" ", rest, IsSpace);
    hide Span, All;
  }

  lemma {:induction false} ScanWordsOf(h: Header, body: string)
    requires GoodHeader(h) && Begins(body)
    ensures SkipTokens(WordsText(h, body), 4) == Match((), TokenText(h.msgid, body))
    ensures ScanToken(TokenText(h.msgid, body)) == Match(h.msgid, body) && Begins(WordsText(h, body))
  {
    hide ScanToken, TokenText, Word, Begins, IsVersion, All;
    var s0 := TokenText(h.msgid, body);
    var s1 := TokenText(h.process, s0);
    var s2 := TokenText(h.app, s1);
    var s3 := TokenText(h.host, s2);
    ScanTokenOf(h.msgid, body);
    ScanTokenOf(h.process, s0);
    ScanTokenOf(h.app, s1);
    ScanTokenOf(h.host, s2);
    ScanTokenOf(h.time, s3);
    assert SkipTokens(s0, 0) == Match((), s0);
    assert SkipTokens(s1, 1) == Match((), s0);
    assert SkipTokens(s2, 2) == Match((), s0);
    assert SkipTokens(s3, 3) == Match((), s0);
  }

  lemma {:induction false} ScanPriorityOf(digits: string, rest: string)
    requires digits != "" && All(digits, IsDigit)
    ensures ScanPriority("<" + (digits + (">" + rest))) == Match(digits, rest)
  {
    hide Span, All;
    var s := "<" + (digits + (">" + rest));
    assert s[1..] == digits + (">" + rest);
    SpanThen(digits, ">" + rest, IsDigit);
    assert s[1..][|digits| + 1..] == rest;
  }

  lemma {:induction false} VersionIsWord(version: string)
    requires IsVersion(version)
    ensures Word(version)
  {
  }

  /** A good header in front of a body is read as such iff the body is one line; it always claims to be one. */
  lemma {:induction false} ScanHeaderOf(h: Header, body: string)
    requires GoodHeader(h) && Begins(body)
    ensures ScanHeader(HeaderText(h, body)) == if All(body, NotNewline) then Match(h.msgid, body) else NoMatch
    ensures ClaimsHeader(HeaderText(h, body))
  {
    hide ScanToken, SkipTokens, ScanPriority, WordsText, Begins, IsVersion, Word, Span;
    var words := WordsText(h, body);
    ScanPriorityOf(h.priority, TokenText(h.version, words));
    ScanWordsOf(h, body);
    VersionIsWord(h.version);
    ScanTokenOf(h.version, words);
    assert IsSpace(' ') && !IsDigit(' ');
    assert All(h.version, IsDigit) && h.version != "" by { VersionIsDigits(h.version); }
    SpanThen(h.version, " " + words, IsDigit);
    assert TokenText(h.version, words)[|h.version|] == ' ';
    hide IsSpace, IsDigit;
  }

  lemma {:induction false} VersionIsDigits(version: string)
    requires IsVersion(version)
    ensures All(version, IsDigit) && version != ""
  {
  }

  // ------------------------------------------------------------------ a whole record

  lemma {:induction false} ElementsTextAppend(es: seq<Element>, rest: string)
    ensures ElementsText(es, rest) == ElementsText(es, "") + rest
  {
    hide ElementText;
    if es != [] {
      var more := ElementsText(es[1..], "");
      ElementsTextAppend(es[1..], rest);
      ElementTextAppend(es[0], more + rest);
      ElementTextAppend(es[0], more);
      assert ElementText(es[0], "") + (more + rest) == (ElementText(es[0], "") + more) + rest;
    }
  }

  lemma {:induction false} ElementsEnds(es: seq<Element>)
    requires es != []
    ensures var s := ElementsText(es, ""); s != "" && s[0] == '[' && s[|s| - 1] == ']'
  {
    hide ParamsText;
    var more := ElementsText(es[1..], "");
    var params := ParamsText(es[0].params, "]" + "");
    if |es| == 1 {
      ParamsEnds(es[0].params);
    } else {
      ElementsEnds(es[1..]);
      ElementTextAppend(es[0], more);
    }
  }

  lemma {:induction false} ParamsEnds(ps: seq<Param>)
    ensures var s := ParamsText(ps, "]" + ""); s != "" && s[|s| - 1] == ']'
  {
    ParamsTextAppend(ps, "", "]");
    assert "" + "]" == "]" + "";
    hide ParamsText;
  }

  lemma {:induction false} HeaderTextAppend(h: Header, a: string, b: string)
    ensures HeaderText(h, a + b) == HeaderText(h, a) + b
    ensures a != "" ==> HeaderText(h, a)[|HeaderText(h, a)| - 1] == a[|a| - 1]
  {
  }

  lemma {:induction false} HeaderEnd(h: Header, a: string)
    requires a != ""
    ensures HeaderText(h, a) != "" && HeaderText(h, a)[|HeaderText(h, a)| - 1] == a[|a| - 1]
  {
  }

  /** Stripping a record's line only shortens what follows its structured data. */
  lemma {:induction false} TrimRecord(h: Header, data: string, tail: string)
    requires data != "" && !IsSpace(data[|data| - 1])
    ensures Trim(HeaderText(h, data + tail)) == HeaderText(h, data + TrimRight(tail))
  {
    hide IsSpace, TrimRight, TokenText;
    HeaderTextAppend(h, data, tail);
    HeaderTextAppend(h, data, TrimRight(tail));
    assert HeaderText(h, data)[0] == '<';
    assert !IsSpace('<') by { AngleIsVisible(); }
    TrimAfterHead(HeaderText(h, data), tail);
  }

  lemma {:induction false} AngleIsVisible()
    ensures !IsSpace('<') && !IsSpace('[') && !IsSpace(']') && !IsSpace('-')
  {
  }

  predicate Detached(tail: string) {
    tail == "" || tail[0] == ' '
  }

  lemma {:induction false} TrimmedDetached(tail: string)
    requires Detached(tail)
    ensures Detached(TrimRight(tail))
  {
  }

  /** The structured data of a body is the accepted elements', with nothing but a space allowed behind them. */
  lemma {:induction false} StructuredTextOf(es: seq<Element>, tail: string)
    requires es != [] && GoodElements(es) && Detached(tail)
    ensures StructuredText(ElementsText(es, tail)) == Some(Joined(es))
  {
    hide GoodElements, ElementText, ScanElements, Joined;
    var body := ElementsText(es, tail);
    ScanElementsOf(es, tail);
    assert body[0] == '[' by {
      ElementsTextAppend(es, tail);
      ElementsEnds(es);
    }
    hide ElementsText;
  }

  /**
    * Any recognizable message id, any structured data in the grammar, any message: the record is parsed,
    * and its fields are exactly its parameters, iff id and body are acceptable; otherwise it is rejected.
    */
  lemma {:induction false} RecordIsParsed(h: Header, es: seq<Element>, tail: string, time: real, c: Conversions)
    requires GoodHeader(h) && es != [] && GoodElements(es) && Detached(tail)
    ensures var body := ElementsText(es, TrimRight(tail));
            var fields := FieldsOf(AllPairs(es));
            ParseLine(HeaderText(h, ElementsText(es, tail)), time, c) ==
            if IsTag(h.msgid) && All(body, NotNewline)
            then Some(TelemetryEvent(h.msgid, TupleOf(fields, c), time, fields, HeaderText(h, body)))
            else None
  {
    hide GoodHeader, GoodElements, IsTag, TrimRight, Trim, FieldsOf, AllPairs, TupleOf, Joined, HeaderText,
         ElementsText, StructuredText, ScanHeader, ClaimsHeader, IsSpace, All, Extract, Detached;
    var data, body := ElementsText(es, ""), ElementsText(es, TrimRight(tail));
    AngleIsVisible();
    ElementsEnds(es);
    ElementsTextAppend(es, tail);
    ElementsTextAppend(es, TrimRight(tail));
    TrimRecord(h, data, tail);
    assert body[0] == data[0];
    ScanHeaderOf(h, body);
    TrimmedDetached(tail);
    StructuredTextOf(es, TrimRight(tail));
    ExtractIsParams(es);
    assert HeaderText(h, body) != "" by { HeaderEnd(h, body); }
  }

  /** The nil value: no fields, whatever message follows. */
  lemma {:induction false} NilIsParsed(h: Header, tail: string, time: real, c: Conversions)
    requires GoodHeader(h) && Detached(tail)
    ensures var body := "-" + TrimRight(tail);
            ParseLine(HeaderText(h, "-" + tail), time, c) ==
            if IsTag(h.msgid) && All(body, NotNewline)
            then Some(TelemetryEvent(h.msgid, TupleOf(map[], c), time, map[], HeaderText(h, body)))
            else None
  {
    hide GoodHeader, IsTag, TrimRight, Trim, TupleOf, HeaderText, StructuredText, ScanHeader, ClaimsHeader, IsSpace,
         All;
    var body := "-" + TrimRight(tail);
    AngleIsVisible();
    TrimRecord(h, "-", tail);
    ScanHeaderOf(h, body);
    TrimmedDetached(tail);
    NilText(body) by { DashBody(TrimRight(tail)); }
    assert Extract("") == [] && FieldsOf([]) == map[];
    assert HeaderText(h, body) != "" by { HeaderEnd(h, body); }
  }

  lemma {:induction false} DashBody(tail: string)
    requires Detached(tail)
    ensures "-" + tail == "-" || "- " <= "-" + tail
  {
  }

  // ------------------------------------------------------------------ printed fields come back

  datatype Item = Item(id: string, pairs: seq<Pair>)

  /** The parameters that stand for pairs, in the escapes of section 6.3.3 of RFC 5424. */
  function ParamsFor(pairs: seq<Pair>): seq<Param> {
    if pairs == [] then [] else [Param(" ", pairs[0].key, Escape(pairs[0].value))] + ParamsFor(pairs[1..])
  }

  function ElementsFor(items: seq<Item>): seq<Element> {
    if items == [] then [] else [Element(items[0].id, ParamsFor(items[0].pairs))] + ElementsFor(items[1..])
  }

  function ItemPairs(items: seq<Item>): seq<Pair> {
    if items == [] then [] else items[0].pairs + ItemPairs(items[1..])
  }

  predicate GoodPairs(pairs: seq<Pair>) {
    forall i | 0 <= i < |pairs| :: pairs[i].key != "" && All(pairs[i].key, IsKeyChar)
  }

  predicate GoodItems(items: seq<Item>) {
    forall i | 0 <= i < |items| :: items[i].id != "" && All(items[i].id, IsIdChar) && GoodPairs(items[i].pairs)
  }

  predicate OneLine(pairs: seq<Pair>) {
    forall i | 0 <= i < |pairs| :: All(pairs[i].value, NotNewline)
  }

  lemma {:induction false} EscapedIsGood(key: string, value: string)
    requires key != "" && All(key, IsKeyChar)
    ensures GoodParam(Param(" ", key, Escape(value))) && PairOf(Param(" ", key, Escape(value))) == Pair(key, value)
  {
    hide QuotedEnd, Escape, Unescape;
    EscapedEnd(value, "");
    assert "\"" + "" == "\"";
    EscapeRoundTrip(value);
  }

  lemma {:induction false} ConsGood(p: Param, rest: seq<Param>)
    requires GoodParam(p) && GoodParams(rest)
    ensures GoodParams([p] + rest) && PairsOf([p] + rest) == [PairOf(p)] + PairsOf(rest)
  {
  }

  lemma {:induction false} ParamsForAreGood(pairs: seq<Pair>)
    requires GoodPairs(pairs)
    ensures GoodParams(ParamsFor(pairs)) && PairsOf(ParamsFor(pairs)) == pairs
  {
    hide GoodParam, PairOf, Escape, All;
    if pairs != [] {
      var first := pairs[0];
      EscapedIsGood(first.key, first.value);
      ParamsForAreGood(pairs[1..]);
      hide GoodPairs, GoodParams, PairsOf;
      ConsGood(Param(" ", first.key, Escape(first.value)), ParamsFor(pairs[1..]));
      assert pairs == [first] + pairs[1..];
    }
  }

  lemma {:induction false} ElementsForAreGood(items: seq<Item>)
    requires GoodItems(items)
    ensures GoodElements(ElementsFor(items)) && AllPairs(ElementsFor(items)) == ItemPairs(items)
    ensures ElementsFor(items) == [] <==> items == []
  {
    hide GoodParams, PairsOf, ParamsFor, GoodPairs;
    if items != [] {
      ParamsForAreGood(items[0].pairs);
      ElementsForAreGood(items[1..]);
      assert ElementsFor(items)[1..] == ElementsFor(items[1..]);
    }
  }

  lemma {:induction false} AllOf(a: string, b: string)
    requires All(a, NotNewline) && All(b, NotNewline)
    ensures All(a + b, NotNewline)
  {
  }

  lemma {:induction false} EscapeKeepsLine(v: string)
    requires All(v, NotNewline)
    ensures All(Escape(v), NotNewline)
  {
    if v != "" {
      EscapeKeepsLine(v[1..]);
    }
  }

  lemma {:induction false} ParamIsOneLine(key: string, value: string, rest: string)
    requires All(key, IsKeyChar) && All(value, NotNewline) && All(rest, NotNewline)
    ensures All(ParamText(Param(" ", key, Escape(value)), rest), NotNewline)
  {
    assert All(key, NotNewline);
    EscapeKeepsLine(value);
    hide All, Escape;
    AllOf("\"", rest) by { assert All("\"", NotNewline); }
    AllOf(Escape(value), "\"" + rest);
    AllOf("=\"", Escape(value) + ("\"" + rest)) by { assert All("=\"", NotNewline) by { ShortLiterals(); } }
    AllOf(key, "=\"" + (Escape(value) + ("\"" + rest)));
    AllOf(" ", key + ("=\"" + (Escape(value) + ("\"" + rest)))) by { ShortLiterals(); }
  }

  lemma {:induction false} ShortLiterals()
    ensures All("=\"", NotNewline) && All(" ", NotNewline) && All("\"", NotNewline)
    ensures All("]", NotNewline) && All("[", NotNewline)
  {
  }

  lemma {:induction false} ParamsAreOneLine(pairs: seq<Pair>, rest: string)
    requires GoodPairs(pairs) && OneLine(pairs) && All(rest, NotNewline)
    ensures All(ParamsText(ParamsFor(pairs), rest), NotNewline)
  {
    hide All, Escape, ParamText;
    if pairs != [] {
      ParamsAreOneLine(pairs[1..], rest);
      assert ParamsFor(pairs)[1..] == ParamsFor(pairs[1..]);
      ParamIsOneLine(pairs[0].key, pairs[0].value, ParamsText(ParamsFor(pairs[1..]), rest));
    }
  }

  lemma {:induction false} IdIsOneLine(id: string)
    requires All(id, IsIdChar)
    ensures All(id, NotNewline)
  {
  }

  lemma {:induction false} ElementsAreOneLine(items: seq<Item>, rest: string)
    requires GoodItems(items) && OneLine(ItemPairs(items)) && All(rest, NotNewline)
    ensures All(ElementsText(ElementsFor(items), rest), NotNewline)
  {
    hide All, ParamsText, ParamsFor;
    if items != [] {
      var id, pairs := items[0].id, items[0].pairs;
      assert forall i | 0 <= i < |pairs| :: ItemPairs(items)[i] == pairs[i];
      assert forall i | 0 <= i < |ItemPairs(items[1..])| :: ItemPairs(items)[|pairs| + i] == ItemPairs(items[1..])[i];
      ElementsAreOneLine(items[1..], rest);
      assert ElementsFor(items)[1..] == ElementsFor(items[1..]);
      hide GoodPairs, OneLine;
      var more := ElementsText(ElementsFor(items[1..]), rest);
      ShortLiterals();
      AllOf("]", more);
      ParamsAreOneLine(pairs, "]" + more);
      IdIsOneLine(id);
      AllOf(id, ParamsText(ParamsFor(pairs), "]" + more));
      AllOf("[", id + ParamsText(ParamsFor(pairs), "]" + more));
    }
  }

  /** Printing any newline-free values under a recognizable id and parsing the record returns id and fields. */
  lemma {:induction false} PrintedRecordRoundTrip(
      h: Header, items: seq<Item>, message: string, time: real, c: Conversions)
    requires GoodHeader(h) && IsTag(h.msgid)
    requires items != [] && GoodItems(items) && OneLine(ItemPairs(items)) && All(message, NotNewline)
    ensures var event := ParseLine(HeaderText(h, ElementsText(ElementsFor(items), " " + message)), time, c);
            && event.Some? && event.value.eventType == h.msgid && event.value.timestamp == time
            && event.value.fields == FieldsOf(ItemPairs(items))
            && event.value.fiveTuple == TupleOf(FieldsOf(ItemPairs(items)), c)
  {
    hide GoodHeader, IsTag, GoodItems, OneLine, GoodElements, ElementsFor, ElementsText, HeaderText, FieldsOf,
         TupleOf, ParseLine, TrimRight;
    var es, tail := ElementsFor(items), " " + message;
    ElementsForAreGood(items);
    assert All(tail, NotNewline);
    assert All(TrimRight(tail), NotNewline);
    hide All;
    ElementsAreOneLine(items, TrimRight(tail));
    RecordIsParsed(h, es, tail, time, c);
  }

  // ------------------------------------------------------------------ fields and older tags

  /** A field is there iff some pair has its key, and its value is the last such pair's. */
  lemma {:induction false} LastValueWins(pairs: seq<Pair>, key: string) returns (i: int)
    ensures i < |pairs| && (i >= 0 <==> key in FieldsOf(pairs))
    ensures i >= 0 ==> pairs[i].key == key && FieldsOf(pairs)[key] == pairs[i].value
    ensures forall j | 0 <= j < |pairs| && j > i :: pairs[j].key != key
  {
    if pairs == [] {
      i := -1;
    } else {
      var n := |pairs| - 1;
      if pairs[n].key == key {
        i := n;
      } else {
        i := LastValueWins(pairs[..n], key);
        assert forall j | 0 <= j < n :: pairs[..n][j] == pairs[j];
      }
    }
  }

  /** The tag of an older line is its first family word, and stands before any bracket or equals sign. */
  lemma {:induction false} LegacyTagBeforeFields(line: string) returns (i: nat)
    requires ParseLegacy(line).Some?
    ensures var tag, text := ParseLegacy(line).value.eventType, ParseLegacy(line).value.fieldText;
            && i + |tag| + |text| == |line| && line[i..] == tag + text
            && IsFamilyWord(tag) && '[' !in line[..i + |tag|] && '=' !in line[..i + |tag|]
    ensures i == 0 || IsSpace(line[i - 1])
    ensures forall j | 0 <= j < i :: !TagAt(line[..Span(line, BeforeFields)], j)
  {
    hide IsFamilyWord, IsSpace, BeforeFields;
    var m := Span(line, BeforeFields);
    var preamble := line[..m];
    i := FindTag(preamble, 0).value;
    FindTagIsFirst(preamble, 0);
    var n := TagLength(preamble[i..]);
    SliceOfPrefix(line, m, i, n);
    NeitherBefore(line, i + n);
    hide FindTag, Span;
  }

  lemma {:induction false} NeitherBefore(line: string, k: nat)
    requires k <= Span(line, BeforeFields)
    ensures '[' !in line[..k] && '=' !in line[..k]
  {
    forall c | c in line[..k] ensures c != '[' && c != '=' {
      var j :| 0 <= j < k && line[..k][j] == c;
      assert BeforeFields(line[j]);
    }
  }

  lemma {:induction false} SliceOfPrefix(s: string, m: nat, i: nat, n: nat)
    requires i + n <= m <= |s|
    ensures s[..m][i..][..n] == s[i..i + n] && s[..i + n] == s[..m][..i + n] && s[i..] == s[i..i + n] + s[i + n..]
  {
  }

  // ------------------------------------------------------------------ the tuple

  /** The first of three fields that is given. */
  function Pick(fields: map<string, string>, a: string, b: string, c: string): Option<string> {
    if Given(fields, a) then Some(fields[a]) else if Given(fields, b) then Some(fields[b])
    else if Given(fields, c) then Some(fields[c]) else None
  }

  function Converted(p: Option<string>, toInt: string -> Option<int>): Option<int> {
    if p.None? then None else toInt(p.value)
  }

  /** Every component of the tuple, with its aliases in order; numeric protocols get their names. */
  lemma {:induction false} TupleIs(fields: map<string, string>, c: Conversions)
    ensures var t := TupleOf(fields, c);
            && t.srcIp == Pick(fields, "source-address", "src-ip", "nat-source-address")
            && t.dstIp == Pick(fields, "destination-address", "dst-ip", "nat-destination-address")
            && t.srcPort == Converted(Pick(fields, "source-port", "src-port", "src-port"), c.toInt)
            && t.dstPort == Converted(Pick(fields, "destination-port", "dst-port", "dst-port"), c.toInt)
    ensures var p := Pick(fields, "protocol-id", "protocol", "ip-protocol");
            TupleOf(fields, c).protocol ==
            if p.None? then None else Some(if p.value in PROTO_NUM then PROTO_NUM[p.value] else c.upper(p.value))
  {
    hide Given;
    FirstOfThree(fields, "source-address", "src-ip", "nat-source-address");
    FirstOfThree(fields, "destination-address", "dst-ip", "nat-destination-address");
    FirstOfThree(fields, "protocol-id", "protocol", "ip-protocol");
    FirstOfTwo(fields, "source-port", "src-port");
    FirstOfTwo(fields, "destination-port", "dst-port");
  }

  lemma {:induction false} FirstOfThree(fields: map<string, string>, a: string, b: string, c: string)
    ensures First(fields, [a, b, c]) == Pick(fields, a, b, c)
  {
    hide Given;
    assert [a, b, c][1..] == [b, c];
    FirstOfTwo(fields, b, c);
  }

  lemma {:induction false} FirstOfTwo(fields: map<string, string>, a: string, b: string)
    ensures First(fields, [a, b]) == Pick(fields, a, b, b)
  {
    hide Given;
    assert [a, b][1..] == [b] && [b][1..] == [];
  }

  // ------------------------------------------------------------------ event tags

  predicate TagWord(w: string) {
    w != "" && All(w, IsTagChar)
  }

  predicate TagWords(words: seq<string>) {
    forall i | 0 <= i < |words| :: TagWord(words[i])
  }

  function Underscored(words: seq<string>): string {
    if words == [] then "" else "_" + (words[0] + Underscored(words[1..]))
  }

  lemma {:induction false} UnderscoredStart(words: seq<string>)
    ensures var s := Underscored(words); s == "" || (s[0] == '_' && !IsTagChar(s[0]))
  {
  }

  lemma {:induction false} TagTailOf(words: seq<string>)
    requires words != [] && TagWords(words)
    ensures TagTail(Underscored(words))
  {
    var rest := Underscored(words[1..]);
    var s := "_" + (words[0] + rest);
    assert TagWord(words[0]);
    assert s[1..] == words[0] + rest;
    UnderscoredStart(words[1..]);
    SpanThen(words[0], rest, IsTagChar);
    hide Span, All, IsTagChar;
    if |words| > 1 {
      TagTailOf(words[1..]);
    }
  }

  lemma {:induction false} TagTailIs(s: string) returns (words: seq<string>)
    requires TagTail(s)
    ensures words != [] && TagWords(words) && s == Underscored(words)
    decreases |s|
  {
    hide IsTagChar;
    var n := Span(s[1..], IsTagChar);
    var word, rest := s[1..][..n], s[1..][n..];
    assert s == "_" + (word + rest);
    words := [];
    if rest != "" {
      words := TagTailIs(rest);
    } else {
      assert rest == Underscored(words);
    }
    hide Span, TagTail, Underscored;
    OneMoreWord(word, words);
    words := [word] + words;
  }

  lemma {:induction false} OneMoreWord(word: string, words: seq<string>)
    requires TagWord(word) && TagWords(words)
    ensures TagWords([word] + words) && Underscored([word] + words) == "_" + (word + Underscored(words))
  {
    hide TagWord;
    assert ([word] + words)[1..] == words;
  }

  /** An event tag is two or more upper-case words with underscores between them, the first of two letters at least. */
  lemma {:induction false} TagIff(s: string)
    ensures IsTag(s) <==>
            exists first: string, words: seq<string> ::
              && s == first + Underscored(words) && words != []
              && TagWord(first) && |first| > 1 && IsUpper(first[0]) && TagWords(words)
  {
    if IsTag(s) {
      var n := Span(s, IsTagChar);
      var words := TagTailIs(s[n..]);
      assert s == s[..n] + Underscored(words);
      assert TagWord(s[..n]);
    }
    if first: string, words: seq<string> :|
        && s == first + Underscored(words) && words != []
        && TagWord(first) && |first| > 1 && IsUpper(first[0]) && TagWords(words) {
      UnderscoredStart(words);
      SpanThen(first, Underscored(words), IsTagChar);
      TagTailOf(words);
      assert s[0] == first[0];
    }
  }
}
