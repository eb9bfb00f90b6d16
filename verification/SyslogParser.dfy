/** One line of the structured security log, parsed into a telemetry event. */
module SyslogParser {
  import opened Common
  import opened Text
  import opened Telemetry
  import opened StructuredData

  // ------------------------------------------------------------------ the header

  predicate IsTagChar(c: char) {
    IsUpper(c) || IsDigit(c)
  }

  /** `_WORD`, once or more. */
  predicate TagTail(s: string)
    decreases |s|
  {
    "_" <= s &&
    var n := Span(s[1..], IsTagChar);
    n > 0 && (s[1..][n..] == "" || TagTail(s[1..][n..]))
  }

  /** An event tag: two or more upper-case words joined by underscores. */
  predicate IsTag(s: string) {
    s != "" && IsUpper(s[0]) &&
    var n := Span(s, IsTagChar);
    n > 1 && TagTail(s[n..])
  }

  /** One word and the white space behind it. */
  function ScanToken(s: string): (r: Scan<string>)
    ensures r.Match? ==> |r.rest| < |s|
  {
    var n := Span(s, IsVisible);
    var w := Span(s[n..], IsSpace);
    if n == 0 || w == 0 then NoMatch else Match(s[..n], s[n..][w..])
  }

  /** The words behind `n` words. */
  function SkipTokens(s: string, n: nat): Scan<()> {
    if n == 0 then Match((), s) else
    match ScanToken(s)
    case NoMatch => NoMatch
    case Match(_, rest) => SkipTokens(rest, n - 1)
  }

  /** The number in angle brackets, and what is behind it. */
  function ScanPriority(s: string): (r: Scan<string>)
    ensures r.Match? ==> All(r.value, IsDigit)
  {
    if !("<" <= s) then NoMatch else
    var n := Span(s[1..], IsDigit);
    if n > 0 && ">" <= s[1..][n..] then Match(s[1..][..n], s[1..][n + 1..]) else NoMatch
  }

  predicate IsVersion(s: string) {
    s != "" && '1' <= s[0] <= '9' && All(s, IsDigit)
  }

  /** Message id and body of a record with a well-formed header. */
  function ScanHeader(s: string): (r: Scan<string>) {
    var priority := ScanPriority(s);
    if priority.NoMatch? || |priority.value| > 3 then NoMatch else
    var version := ScanToken(priority.rest);
    if version.NoMatch? || !IsVersion(version.value) then NoMatch else
    var words := SkipTokens(version.rest, 4);
    if words.NoMatch? then NoMatch else
    var id := ScanToken(words.rest);
    if id.Match? && All(id.rest, NotNewline) then id else NoMatch
  }

  /** A line that claims to be a record, well-formed or not. */
  predicate ClaimsHeader(s: string) {
    var priority := ScanPriority(s);
    priority.Match? &&
    var n := Span(priority.rest, IsDigit);
    n > 0 && n < |priority.rest| && IsSpace(priority.rest[n])
  }

  // ------------------------------------------------------------------ structured data

  /** The texts of the elements of a body; nothing for the nil value; None if they are malformed. */
  function StructuredText(body: string): Option<string> {
    if body == "-" || "- " <= body then Some("") else
    match ScanElements(body)
    case NoMatch => None
    case Match(es, rest) => if es == [] || (rest != "" && rest[0] != ' ') then None else Some(Joined(es))
  }

  // ------------------------------------------------------------------ older lines

  predicate BeforeFields(c: char) {
    c != '[' && c != '='
  }

  predicate IsWordChar(c: char) {
    IsTagChar(c) || c == '_'
  }

  /** A word of one of the known event families. */
  predicate IsFamilyWord(w: string) {
    || ("RT_" <= w && var n := Span(w[3..], IsTagChar); n > 0 && n + 4 < |w| && w[3 + n] == '_')
    || "APPTRACK_" < w
    || "WEBFILTER_" < w
    || "AV_" < w
  }

  /** Length of the tag that starts a text: a family word up to a colon, white space or the end; else 0. */
  function TagLength(s: string): (n: nat)
    ensures n <= |s|
  {
    var n := Span(s, IsWordChar);
    if IsFamilyWord(s[..n]) && (n == |s| || s[n] == ':' || IsSpace(s[n])) then n else 0
  }

  predicate TagAt(s: string, i: nat)
    requires i <= |s|
  {
    (i == 0 || IsSpace(s[i - 1])) && TagLength(s[i..]) > 0
  }

  /** The first tag at or behind `i` that starts a word. */
  function FindTag(s: string, i: nat): (r: Option<nat>)
    requires i <= |s|
    ensures r.Some? ==> i <= r.value < |s|
    decreases |s| - i
  {
    if i == |s| then None else if TagAt(s, i) then Some(i) else FindTag(s, i + 1)
  }

  lemma {:induction false} FindTagIsFirst(s: string, i: nat)
    requires i <= |s|
    ensures match FindTag(s, i)
            case Some(k) => TagAt(s, k) && forall j | i <= j < k :: !TagAt(s, j)
            case None => forall j | i <= j < |s| :: !TagAt(s, j)
    decreases |s| - i
  {
    hide TagAt;
    if i < |s| && !TagAt(s, i) {
      FindTagIsFirst(s, i + 1);
    }
  }

  // ------------------------------------------------------------------ the line

  /** Event type and the text that holds the fields. */
  datatype Record = Record(eventType: string, fieldText: string)

  function ParseLegacy(line: string): Option<Record> {
    var preamble := line[..Span(line, BeforeFields)];
    match FindTag(preamble, 0)
    case None => None
    case Some(i) =>
      var n := TagLength(preamble[i..]);
      Some(Record(line[i..i + n], line[i + n..]))
  }

  /** The reading of a stripped line. */
  function ParseRecord(line: string): Option<Record> {
    match ScanHeader(line)
    case Match(id, body) =>
      if !IsTag(id) then None else
      (match StructuredText(body)
       case None => None
       case Some(text) => Some(Record(id, text)))
    case NoMatch => if ClaimsHeader(line) then None else ParseLegacy(line)
  }

  /** Every pair in turn, so that the last value of a key wins. */
  function FieldsOf(pairs: seq<Pair>): map<string, string> {
    if pairs == [] then map[] else
    var last := pairs[|pairs| - 1];
    FieldsOf(pairs[..|pairs| - 1])[last.key := last.value]
  }

  /** Conversions of the runtime that the parser applies to field values. */
  datatype Conversions = Conversions(upper: string -> string, toInt: string -> Option<int>)

  const SRC_IP_KEYS := ["source-address", "src-ip", "nat-source-address"]
  const DST_IP_KEYS := ["destination-address", "dst-ip", "nat-destination-address"]
  const SRC_PORT_KEYS := ["source-port", "src-port"]
  const DST_PORT_KEYS := ["destination-port", "dst-port"]
  const PROTO_KEYS := ["protocol-id", "protocol", "ip-protocol"]
  const PROTO_NUM := map["1" := "ICMP", "6" := "TCP", "17" := "UDP", "47" := "GRE", "50" := "ESP"]

  predicate Given(fields: map<string, string>, key: string) {
    key in fields && fields[key] != ""
  }

  /** The value of the first of the keys that has a non-empty one. */
  function First(fields: map<string, string>, keys: seq<string>): (r: Option<string>)
    ensures r.Some? ==> exists i :: 0 <= i < |keys| && Given(fields, keys[i]) && r.value == fields[keys[i]]
                                    && forall j | 0 <= j < i :: !Given(fields, keys[j])
    ensures r.None? ==> forall i | 0 <= i < |keys| :: !Given(fields, keys[i])
  {
    if keys == [] then None
    else if Given(fields, keys[0]) then Some(fields[keys[0]])
    else
      var r := First(fields, keys[1..]);
      assert forall i | 0 < i < |keys| :: keys[i] == keys[1..][i - 1];
      assert r.Some? ==> forall i | 0 <= i < |keys| - 1 && Given(fields, keys[1..][i]) :: Given(fields, keys[i + 1]);
      r
  }

  function ProtocolOf(raw: Option<string>, c: Conversions): Option<string> {
    match raw
    case None => None
    case Some(p) => Some(if p in PROTO_NUM then PROTO_NUM[p] else c.upper(p))
  }

  function PortOf(raw: Option<string>, c: Conversions): Option<int> {
    match raw case None => None case Some(p) => c.toInt(p)
  }

  function TupleOf(fields: map<string, string>, c: Conversions): FiveTuple {
    FiveTuple(First(fields, SRC_IP_KEYS), First(fields, DST_IP_KEYS), ProtocolOf(First(fields, PROTO_KEYS), c),
              PortOf(First(fields, SRC_PORT_KEYS), c), PortOf(First(fields, DST_PORT_KEYS), c))
  }

  function EventOf(r: Record, line: string, time: real, c: Conversions): TelemetryEvent {
    var fields := FieldsOf(Extract(r.fieldText));
    TelemetryEvent(r.eventType, TupleOf(fields, c), time, fields, line)
  }

  function ParseLine(line: string, time: real, c: Conversions): Option<TelemetryEvent> {
    var s := Trim(line);
    if s == "" then None else
    match ParseRecord(s)
    case None => None
    case Some(r) => Some(EventOf(r, s, time, c))
  }

  // ------------------------------------------------------------------ the parser's loops

  function ElementTexts(es: seq<Element>): seq<string> {
    if es == [] then [] else [ElementText(es[0], "")] + ElementTexts(es[1..])
  }

  function JoinWithSpace(chunks: seq<string>): string {
    if chunks == [] then "" else if |chunks| == 1 then chunks[0] else chunks[0] + (" " + JoinWithSpace(chunks[1..]))
  }

  lemma {:induction false} JoinedIsJoin(es: seq<Element>)
    ensures JoinWithSpace(ElementTexts(es)) == Joined(es)
    ensures ElementTexts(es) == [] <==> es == []
  {
    hide ElementText;
    if es != [] {
      JoinedIsJoin(es[1..]);
      ElementTextAppend(es[0], if |es| == 1 then "" else " " + Joined(es[1..]));
      assert ElementTexts(es)[1..] == ElementTexts(es[1..]);
      assert |es| == 1 ==> ElementTexts(es) == [ElementText(es[0], "")];
      assert ElementText(es[0], "") + "" == ElementText(es[0], "");
    }
  }

  lemma {:induction false} ParamsTextAppend(ps: seq<Param>, a: string, b: string)
    ensures ParamsText(ps, a + b) == ParamsText(ps, a) + b
  {
    if ps != [] {
      ParamsTextAppend(ps[1..], a, b);
      var p, more := ps[0], ParamsText(ps[1..], a);
      assert p.raw + ("\"" + (more + b)) == (p.raw + ("\"" + more)) + b;
      assert p.key + ("=\"" + (p.raw + ("\"" + more) + b)) == (p.key + ("=\"" + (p.raw + ("\"" + more)))) + b;
    }
  }

  lemma {:induction false} ElementTextAppend(e: Element, rest: string)
    ensures ElementText(e, rest) == ElementText(e, "") + rest
  {
    ParamsTextAppend(e.params, "]" + "", rest);
    assert ("]" + "") + rest == "]" + rest;
    hide ParamsText;
  }

  lemma {:induction false} ElementTextsAppend(es: seq<Element>, e: Element)
    ensures ElementTexts(es + [e]) == ElementTexts(es) + [ElementText(e, "")]
  {
    hide ElementText;
    if es != [] {
      assert (es + [e])[1..] == es[1..] + [e];
      ElementTextsAppend(es[1..], e);
    }
  }

  /** The scanner's first step, as the loop takes it. */
  lemma {:induction false} ElementsStep(s: string)
    requires "[" <= s
    ensures ScanElement(s).NoMatch? ==> ScanElements(s).NoMatch?
    ensures ScanElement(s).Match? ==>
              var first := ScanElement(s);
              && s[..|s| - |first.rest|] == ElementText(first.value, "") && first.rest == s[|s| - |first.rest|..]
              && ScanElements(s) == match ScanElements(first.rest)
                                    case NoMatch => NoMatch
                                    case Match(es, after) => Match([first.value] + es, after)
  {
    hide ElementText, GoodElement;
    if ScanElement(s).Match? {
      ScanElementIs(s);
      ElementTextAppend(ScanElement(s).value, ScanElement(s).rest);
    }
    hide ScanElement;
  }

  /** What the whole body's scan is once the elements in front of `rest` are known. */
  function Prefixed(front: seq<Element>, r: Scan<seq<Element>>): Scan<seq<Element>> {
    match r case NoMatch => NoMatch case Match(es, after) => Match(front + es, after)
  }

  lemma {:induction false} PrefixedNone(r: Scan<seq<Element>>)
    ensures Prefixed([], r) == r
  {
    if r.Match? {
      assert [] + r.value == r.value;
    }
  }

  lemma {:induction false} PrefixedStep(front: seq<Element>, e: Element, r: Scan<seq<Element>>)
    ensures Prefixed(front, Prefixed([e], r)) == Prefixed(front + [e], r)
  {
    if r.Match? {
      assert front + ([e] + r.value) == (front + [e]) + r.value;
    }
  }

  /** Collects the elements of a body one after the other. */
  method CollectElements(body: string) returns (text: Option<string>)
    requires body != "-" && !("- " <= body)
    ensures text == StructuredText(body)
  {
    hide ScanElement, ScanElements, Joined, ElementText;
    var chunks: seq<string> := [];
    var pos := 0;
    ghost var seen: seq<Element> := [];
    assert body[0..] == body;
    PrefixedNone(ScanElements(body));
    while pos < |body| && body[pos] == '['
      invariant pos <= |body| && chunks == ElementTexts(seen)
      invariant ScanElements(body) == Prefixed(seen, ScanElements(body[pos..]))
      decreases |body| - pos
    {
      var sd := ScanElement(body[pos..]);
      ElementsStep(body[pos..]);
      if sd.NoMatch? {
        return None;
      }
      var end := |body| - |sd.rest|;
      assert body[pos..][..end - pos] == body[pos..end] && body[pos..][end - pos..] == body[end..];
      ElementTextsAppend(seen, sd.value);
      PrefixedStep(seen, sd.value, ScanElements(body[end..]));
      chunks := chunks + [body[pos..end]];
      seen := seen + [sd.value];
      pos := end;
    }
    NothingMore(body[pos..]);
    assert seen + [] == seen;
    JoinedIsJoin(seen);
    if chunks == [] || (pos < |body| && body[pos] != ' ') {
      return None;
    }
    text := Some(JoinWithSpace(chunks));
  }

  lemma {:induction false} NothingMore(s: string)
    requires s == "" || s[0] != '['
    ensures ScanElements(s) == Match([], s)
  {
  }

  /** Assigns every pair of the text in turn. */
  method CollectFields(text: string) returns (fields: map<string, string>)
    ensures fields == FieldsOf(Extract(text))
  {
    hide Extract;
    var pairs := Extract(text);
    fields := map[];
    for i := 0 to |pairs|
      invariant fields == FieldsOf(pairs[..i])
    {
      assert pairs[..i + 1][..i] == pairs[..i];
      fields := fields[pairs[i].key := pairs[i].value];
    }
    assert pairs[..|pairs|] == pairs;
  }

  /** Event type and field text of a stripped line. */
  method FindRecord(line: string) returns (r: Option<Record>)
    ensures r == ParseRecord(line)
  {
    hide ScanHeader, IsTag, StructuredText, ClaimsHeader, ParseLegacy;
    var header := ScanHeader(line);
    if header.Match? {
      if !IsTag(header.value) {
        return None;
      }
      var body := header.rest;
      if body == "-" || "- " <= body {
        NilText(body);
        return Some(Record(header.value, ""));
      }
      var text := CollectElements(body);
      return if text.None? then None else Some(Record(header.value, text.value));
    }
    if ClaimsHeader(line) {
      return None;
    }
    r := ParseLegacy(line);
  }

  method ParseSyslogLine(line: string, recvTime: real, c: Conversions) returns (event: Option<TelemetryEvent>)
    ensures event == ParseLine(line, recvTime, c)
  {
    hide ParseRecord, Extract, FieldsOf, TupleOf, Trim;
    var s := Trim(line);
    if s == "" {
      return None;
    }
    var record := FindRecord(s);
    if record.None? {
      return None;
    }
    var fields := CollectFields(record.value.fieldText);
    event := Some(TelemetryEvent(record.value.eventType, TupleOf(fields, c), recvTime, fields, s));
  }

  lemma {:induction false} NilText(body: string)
    requires body == "-" || "- " <= body
    ensures StructuredText(body) == Some("")
  {
  }
}
