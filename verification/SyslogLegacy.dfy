/** Older lines: free text, an event tag, and fields that may be quoted or not. */
module SyslogLegacy {
  import opened Common
  import opened Text
  import opened Telemetry
  import opened StructuredData
  import opened SyslogParser
  import opened SyslogRoundTrip

  // ------------------------------------------------------------------ fields, quoted or bare

  /** One field behind white space: its value between quotes, with escapes, or bare. */
  datatype Field = Quoted(sep: string, key: string, raw: string) | Bare(sep: string, key: string, value: string)

  predicate GoodField(f: Field) {
    && f.sep != "" && All(f.sep, IsSpace) && f.key != "" && All(f.key, IsKeyChar)
    && match f
       case Quoted(_, _, raw) => QuotedEnd(raw + "\"", false) == Some(|raw|)
       case Bare(_, _, value) => value != "" && All(value, IsBareChar)
  }

  predicate GoodFields(fs: seq<Field>) {
    forall i | 0 <= i < |fs| :: GoodField(fs[i])
  }

  function FieldText(f: Field, rest: string): string {
    f.sep + (f.key + ("=" + match f
                             case Quoted(_, _, raw) => "\"" + (raw + ("\"" + rest))
                             case Bare(_, _, value) => value + rest))
  }

  function FieldsText(fs: seq<Field>): string {
    if fs == [] then "" else FieldText(fs[0], FieldsText(fs[1..]))
  }

  function FieldPair(f: Field): Pair {
    match f case Quoted(_, key, raw) => Pair(key, Unescape(raw)) case Bare(_, key, value) => Pair(key, value)
  }

  function FieldPairs(fs: seq<Field>): seq<Pair> {
    if fs == [] then [] else [FieldPair(fs[0])] + FieldPairs(fs[1..])
  }

  /** What closes a quoted value closes it whatever follows. */
  lemma {:induction false} QuoteStays(s: string, t: string)
    requires QuotedEnd(s, false).Some?
    ensures QuotedEnd(s + t, false) == QuotedEnd(s, false)
  {
    if s[0] == '"' {
    } else if s[0] == '\\' {
      assert (s + t)[2..] == s[2..] + t;
      QuoteStays(s[2..], t);
    } else {
      assert (s + t)[1..] == s[1..] + t;
      QuoteStays(s[1..], t);
    }
  }

  lemma {:induction false} ReadQuoted(key: string, raw: string, rest: string)
    requires QuotedEnd(raw + "\"", false) == Some(|raw|)
    ensures ExtractValue(key, "\"" + (raw + ("\"" + rest))) == [Pair(key, Unescape(raw))] + Extract(rest)
  {
    hide QuotedEnd, Unescape, Extract;
    var value := raw + ("\"" + rest);
    var v := "\"" + value;
    QuoteStays(raw + "\"", rest);
    assert value == (raw + "\"") + rest && v[1..] == value;
    assert value[..|raw|] == raw && value[|raw| + 1..] == rest;
  }

  lemma {:induction false} ReadBare(key: string, value: string, rest: string)
    requires value != "" && All(value, IsBareChar) && (rest == "" || !IsBareChar(rest[0]))
    ensures ExtractValue(key, value + rest) == [Pair(key, value)] + Extract(rest)
  {
    hide Extract, Span;
    var v := value + rest;
    assert v[0] == value[0] && v[0] != '"';
    SpanThen(value, rest, IsBareChar);
  }

  /** A key with a bare value, up to a character that ends it, is one pair. */
  lemma {:induction false} BarePairIsRead(key: string, value: string, rest: string)
    requires key != "" && All(key, IsKeyChar)
    requires value != "" && All(value, IsBareChar) && (rest == "" || !IsBareChar(rest[0]))
    ensures Extract(key + ("=" + (value + rest))) == [Pair(key, value)] + Extract(rest)
  {
    hide Extract, ExtractValue, All, IsBareChar, IsKeyChar;
    ExtractWord(key, value + rest);
    ReadBare(key, value, rest);
  }

  /** A key without a value, or with a quote never closed, is no pair; the scan goes on behind the next character. */
  lemma {:induction false} ValuelessKeyIsSkipped(key: string, v: string)
    requires key != "" && All(key, IsKeyChar) && v != "" && !IsBareChar(v[0])
    requires v[0] == '"' ==> QuotedEnd(v[1..], false).None?
    ensures Extract(key + ("=" + v)) == Extract(v[1..])
  {
    hide Extract, All, IsBareChar, IsKeyChar, QuotedEnd;
    ExtractWord(key, v);
    assert Span(v, IsBareChar) == 0;
  }

  lemma {:induction false} FieldIsRead(f: Field, rest: string)
    requires GoodField(f) && (rest == "" || IsSpace(rest[0]))
    ensures Extract(FieldText(f, rest)) == [FieldPair(f)] + Extract(rest)
  {
    hide QuotedEnd, All, Unescape, Extract, ExtractValue, IsSpace, IsKeyChar;
    match f
    case Quoted(sep, key, raw) =>
      var v := "\"" + (raw + ("\"" + rest));
      ExtractSkipsSpace(sep, key + ("=" + v));
      ExtractWord(key, v);
      ReadQuoted(key, raw, rest);
    case Bare(sep, key, value) =>
      ExtractSkipsSpace(sep, key + ("=" + (value + rest)));
      BarePairIsRead(key, value, rest);
  }

  lemma {:induction false} FieldsStart(fs: seq<Field>)
    requires GoodFields(fs)
    ensures FieldsText(fs) == "" || IsSpace(FieldsText(fs)[0])
  {
    if fs != [] {
      assert GoodField(fs[0]);
      assert FieldsText(fs)[0] == fs[0].sep[0];
    }
  }

  /** The pair scan finds exactly the fields, in order, however each is written. */
  lemma {:induction false} FieldsAreRead(fs: seq<Field>)
    requires GoodFields(fs)
    ensures Extract(FieldsText(fs)) == FieldPairs(fs)
  {
    hide GoodField, FieldText, Extract, FieldPair;
    if fs == [] {
      assert Extract("") == [] by { NothingToRead(); }
    } else {
      assert GoodField(fs[0]);
      FieldsStart(fs[1..]);
      FieldIsRead(fs[0], FieldsText(fs[1..]));
      FieldsAreRead(fs[1..]);
    }
  }

  lemma {:induction false} NothingToRead()
    ensures Extract("") == []
  {
  }

  // ------------------------------------------------------------------ the tag behind free text

  /** Ends in white space, or is nothing. */
  predicate EndsWord(s: string) {
    s == "" || IsSpace(s[|s| - 1])
  }

  predicate Untagged(s: string) {
    forall j | 0 <= j < |s| :: !TagAt(s, j)
  }

  /** Free text before the tag: without bracket or equals sign, without a tag of its own, ending in white space. */
  predicate FreeText(s: string) {
    All(s, BeforeFields) && EndsWord(s) && Untagged(s)
  }

  predicate IsFamilyTag(tag: string) {
    All(tag, IsWordChar) && IsFamilyWord(tag)
  }

  predicate EndsTag(s: string) {
    s == "" || s[0] == ':' || IsSpace(s[0])
  }

  lemma {:induction false} SpaceEndsWords(c: char)
    requires IsSpace(c) || c == ':'
    ensures !IsWordChar(c)
  {
  }

  /** Words of free text end in it, so that what follows makes no tag of them. */
  lemma {:induction false} TagsStayAway(free: string, rest: string, j: nat)
    requires EndsWord(free) && j < |free|
    ensures TagAt(free + rest, j) <==> TagAt(free, j)
  {
    hide IsFamilyWord, IsWordChar, IsSpace;
    var a, s := free[j..], (free + rest)[j..];
    assert s == a + rest;
    var n := Span(a, IsWordChar);
    SpaceEndsWords(free[|free| - 1]);
    assert a[|a| - 1] == free[|free| - 1];
    assert a[..|a|] == a;
    assert n < |a|;
    assert s[..n] == a[..n] && s[n] == a[n];
    SpanIs(s, n, IsWordChar);
  }

  lemma {:induction false} TagStands(free: string, tag: string, rest: string)
    requires EndsWord(free) && IsFamilyTag(tag) && EndsTag(rest)
    ensures TagLength(tag + rest) == |tag| && tag != ""
    ensures TagAt(free + (tag + rest), |free|)
  {
    hide IsFamilyWord, IsSpace, Span, IsWordChar;
    assert rest == "" || !IsWordChar(rest[0]) by { if rest != "" { SpaceEndsWords(rest[0]); } }
    SpanThen(tag, rest, IsWordChar);
    assert tag != "" by { FamilyNotEmpty(tag); }
    assert (free + (tag + rest))[|free|..] == tag + rest;
  }

  lemma {:induction false} FamilyNotEmpty(tag: string)
    requires IsFamilyWord(tag)
    ensures tag != ""
  {
  }

  /** A text starts with a tag of that length iff the tag is of a known family, before a colon, space or nothing. */
  lemma {:induction false} TagLengthIff(s: string, n: nat)
    ensures TagLength(s) == n && n > 0 <==>
            n <= |s| && n > 0 && IsFamilyTag(s[..n]) && EndsTag(s[n..])
  {
    hide IsFamilyWord, IsWordChar, IsSpace;
    if n <= |s| && IsFamilyTag(s[..n]) && EndsTag(s[n..]) {
      TagStands("", s[..n], s[n..]);
      assert s == s[..n] + s[n..];
    }
  }

  lemma {:induction false} TagIsFound(free: string, tag: string, rest: string)
    requires FreeText(free) && IsFamilyTag(tag) && EndsTag(rest)
    ensures FindTag(free + (tag + rest), 0) == Some(|free|)
  {
    hide TagAt, IsFamilyTag, EndsTag;
    var s := free + (tag + rest);
    FindTagIsFirst(s, 0);
    TagStands(free, tag, rest);
    forall j | 0 <= j < |free| ensures !TagAt(s, j) {
      TagsStayAway(free, tag + rest, j);
    }
  }

  // ------------------------------------------------------------------ no header in front

  lemma {:induction false} HeaderClaims(s: string)
    ensures ScanHeader(s).Match? ==> ClaimsHeader(s)
  {
    hide SkipTokens, IsSpace, IsDigit;
    var priority := ScanPriority(s);
    if priority.Match? && ScanToken(priority.rest).Match? && IsVersion(ScanToken(priority.rest).value) {
      VersionThenSpace(priority.rest);
    }
  }

  lemma {:induction false} VersionThenSpace(s: string)
    requires ScanToken(s).Match? && IsVersion(ScanToken(s).value)
    ensures var n := Span(s, IsDigit); n > 0 && n < |s| && IsSpace(s[n])
  {
    var n := Span(s, IsVisible);
    assert IsSpace(s[n]);
    SpaceIsNoDigit(s[n]);
    hide IsSpace, IsDigit;
    SpanIs(s, n, IsDigit);
  }

  lemma {:induction false} SpaceIsNoDigit(c: char)
    requires IsSpace(c)
    ensures !IsDigit(c) && c != '<' && c != '>'
  {
  }

  lemma {:induction false} PriorityStays(free: string, rest: string)
    requires free != "" && IsSpace(free[|free| - 1])
    ensures match ScanPriority(free)
            case NoMatch => ScanPriority(free + rest) == NoMatch
            case Match(digits, b) =>
              && ScanPriority(free + rest) == Match(digits, b + rest)
              && b != "" && b[|b| - 1] == free[|free| - 1]
  {
    hide IsSpace, IsDigit, Span;
    var s, last := free + rest, free[|free| - 1];
    SpaceIsNoDigit(last);
    assert s[0] == free[0];
    if free[0] == '<' {
      var a := free[1..];
      assert s[1..] == a + rest && a[|a| - 1] == last;
      SpanStays(a, rest, IsDigit);
      var n := Span(a, IsDigit);
      assert a[n] == '>' ==> n < |a| - 1;
      assert a[n] == '>' ==> (a + rest)[n + 1..] == a[n + 1..] + rest;
    }
  }

  /** Free text that claims to be a record still does so with more behind it, and other text does not. */
  lemma {:induction false} ClaimStays(free: string, rest: string)
    requires free != "" && EndsWord(free)
    ensures ClaimsHeader(free + rest) <==> ClaimsHeader(free)
  {
    hide IsSpace, IsDigit, ScanPriority, Span;
    PriorityStays(free, rest);
    if ScanPriority(free).Match? {
      SpaceIsNoDigit(free[|free| - 1]);
      SpanStays(ScanPriority(free).rest, rest, IsDigit);
    }
  }

  lemma {:induction false} SpanStays(a: string, rest: string, p: char -> bool)
    requires a != "" && !p(a[|a| - 1])
    ensures Span(a + rest, p) == Span(a, p) < |a|
    ensures (a + rest)[Span(a, p)] == a[Span(a, p)] && (a + rest)[..Span(a, p)] == a[..Span(a, p)]
  {
    var n := Span(a, p);
    assert a[..|a|] == a;
    assert (a + rest)[..n] == a[..n];
    SpanIs(a + rest, n, p);
  }

  lemma {:induction false} TagClaimsNothing(tag: string, rest: string)
    requires IsFamilyTag(tag)
    ensures !ClaimsHeader(tag + rest) && tag != "" && !IsSpace(tag[0]) && !IsSpace(tag[|tag| - 1])
  {
    FamilyNotEmpty(tag);
    assert IsWordChar(tag[0]) && IsWordChar(tag[|tag| - 1]);
    assert (tag + rest)[0] == tag[0] != '<';
  }

  // ------------------------------------------------------------------ the whole line

  lemma {:induction false} WordsAreBeforeFields(tag: string)
    requires All(tag, IsWordChar)
    ensures All(tag, BeforeFields)
  {
  }

  lemma {:induction false} PreambleOf(free: string, tag: string, tail: string)
    requires All(free, BeforeFields) && All(tag, IsWordChar)
    ensures var line := free + (tag + tail);
            line[..Span(line, BeforeFields)] == free + (tag + tail[..Span(tail, BeforeFields)])
  {
    hide IsWordChar, Span;
    WordsAreBeforeFields(tag);
    var head := free + tag;
    assert free + (tag + tail) == head + tail;
    assert All(head, BeforeFields);
    SpanBehindAll(head, tail);
  }

  lemma {:induction false} Parts(free: string, tag: string, tail: string)
    ensures var line := free + (tag + tail);
            && line[|free|..] == tag + tail && line[|free|..|free| + |tag|] == tag && line[|free| + |tag|..] == tail
  {
  }

  lemma {:induction false} LegacyRecord(free: string, tag: string, tail: string)
    requires FreeText(free) && IsFamilyTag(tag) && EndsTag(tail)
    ensures ParseLegacy(free + (tag + tail)) == Some(Record(tag, tail))
  {
    hide IsFamilyWord, IsWordChar, FindTag, TagLength, Untagged, IsSpace, Span, BeforeFields, TagAt;
    var mid := tail[..Span(tail, BeforeFields)];
    PreambleOf(free, tag, tail);
    FirstStays(tail);
    TagIsFound(free, tag, mid);
    TagStands(free, tag, mid);
    Parts(free, tag, mid);
    Parts(free, tag, tail);
  }

  lemma {:induction false} SpanBehindAll(head: string, tail: string)
    requires All(head, BeforeFields)
    ensures Span(head + tail, BeforeFields) == |head| + Span(tail, BeforeFields)
  {
    var k := Span(tail, BeforeFields);
    assert (head + tail)[..|head| + k] == head + tail[..k];
    SpanIs(head + tail, |head| + k, BeforeFields);
  }

  lemma {:induction false} FirstStays(tail: string)
    requires EndsTag(tail)
    ensures EndsTag(tail[..Span(tail, BeforeFields)])
  {
  }

  lemma {:induction false} FieldEnd(f: Field, rest: string)
    requires GoodField(f)
    ensures var s := FieldText(f, rest); s != "" && (rest == "" ==> !IsSpace(s[|s| - 1]))
    ensures rest != "" ==> FieldText(f, rest)[|FieldText(f, rest)| - 1] == rest[|rest| - 1]
  {
    hide QuotedEnd;
    if f.Bare? {
      assert IsBareChar(f.value[|f.value| - 1]);
    }
  }

  lemma {:induction false} FieldsEnd(fs: seq<Field>)
    requires GoodFields(fs) && fs != []
    ensures FieldsText(fs) != "" && !IsSpace(FieldsText(fs)[|FieldsText(fs)| - 1])
  {
    hide GoodField, FieldText, IsSpace;
    FieldEnd(fs[0], FieldsText(fs[1..]));
    if |fs| > 1 {
      FieldsEnd(fs[1..]);
    }
  }

  /** Behind the tag: a colon or nothing, and the fields. */
  function Rear(colon: bool, fs: seq<Field>): string {
    if colon then ":" + FieldsText(fs) else FieldsText(fs)
  }

  lemma {:induction false} RearIs(colon: bool, fs: seq<Field>)
    requires GoodFields(fs)
    ensures EndsTag(Rear(colon, fs)) && Extract(Rear(colon, fs)) == FieldPairs(fs)
    ensures var t := Rear(colon, fs); t != "" ==> !IsSpace(t[|t| - 1])
  {
    hide Extract, GoodFields;
    FieldsAreRead(fs);
    FieldsStart(fs);
    if fs != [] {
      FieldsEnd(fs);
    }
    ExtractOne(':', FieldsText(fs));
  }

  lemma {:induction false} NotTrimmed(free: string, tag: string, tail: string)
    requires IsFamilyTag(tag) && (free == "" || !IsSpace(free[0])) && (tail != "" ==> !IsSpace(tail[|tail| - 1]))
    ensures var line := free + (tag + tail); Trim(line) == line && line != ""
  {
    hide IsSpace, IsFamilyTag;
    TagClaimsNothing(tag, tail);
    var line := free + (tag + tail);
    assert line[0] == if free == "" then tag[0] else free[0];
    assert line[|line| - 1] == if tail == "" then tag[|tag| - 1] else tail[|tail| - 1];
  }

  /**
    * An older line with any free text in front, a tag of a known family and any fields, quoted or bare, gives that tag
    * and exactly the fields' map, the last value of a key winning.
    */
  lemma {:induction false} LegacyRoundTrip(
      free: string, tag: string, colon: bool, fs: seq<Field>, time: real, c: Conversions)
    requires FreeText(free) && (free == "" || !IsSpace(free[0])) && !ClaimsHeader(free)
    requires IsFamilyTag(tag) && GoodFields(fs)
    ensures var line := free + (tag + Rear(colon, fs));
            var fields := FieldsOf(FieldPairs(fs));
            ParseLine(line, time, c) == Some(TelemetryEvent(tag, TupleOf(fields, c), time, fields, line))
  {
    hide FreeText, IsFamilyTag, GoodFields, ClaimsHeader, ScanHeader, Rear, FieldsOf, FieldPairs, TupleOf, Extract,
         IsSpace, Trim, ParseLegacy;
    var tail := Rear(colon, fs);
    var line := free + (tag + tail);
    RearIs(colon, fs);
    NotTrimmed(free, tag, tail);
    LegacyRecord(free, tag, tail);
    HeaderClaims(line);
    if free == "" {
      TagClaimsNothing(tag, tail);
      assert line == tag + tail;
    } else {
      assert EndsWord(free) by { FreeEndsWord(free); }
      ClaimStays(free, tag + tail);
    }
  }

  lemma {:induction false} FreeEndsWord(free: string)
    requires FreeText(free)
    ensures EndsWord(free)
  {
  }

  /** A line that is no record and has no tag before bracket and equals sign gives nothing. */
  lemma {:induction false} UntaggedIsRejected(line: string, time: real, c: Conversions)
    requires !ClaimsHeader(Trim(line))
    requires var s := Trim(line); Untagged(s[..Span(s, BeforeFields)])
    ensures ParseLine(line, time, c) == None
  {
    hide ClaimsHeader, ScanHeader, Trim, TagAt;
    var s := Trim(line);
    HeaderClaims(s);
    FindTagIsFirst(s[..Span(s, BeforeFields)], 0);
  }

  /** A line that claims to be a record and is none gives nothing: it is never read as an older line. */
  lemma {:induction false} BrokenRecordIsRejected(line: string, time: real, c: Conversions)
    requires ClaimsHeader(Trim(line)) && ScanHeader(Trim(line)).NoMatch?
    ensures ParseLine(line, time, c) == None
  {
    hide ClaimsHeader, ScanHeader, Trim;
  }

  // ------------------------------------------------------------------ the known families

  /** `RT_`, upper-case letters and digits, an underscore, and more. */
  predicate IsRtTag(tag: string, subsystem: string, event: string) {
    tag == "RT_" + (subsystem + ("_" + event)) && subsystem != "" && All(subsystem, IsTagChar) && event != ""
  }

  predicate StartsWith(tag: string, family: string) {
    |tag| > |family| && tag[..|family|] == family
  }

  /** The tags of the four event families, and no others. */
  lemma {:induction false} FamilyIff(tag: string)
    ensures IsFamilyWord(tag) <==>
            || (exists subsystem: string, event: string :: IsRtTag(tag, subsystem, event))
            || StartsWith(tag, "APPTRACK_") || StartsWith(tag, "WEBFILTER_") || StartsWith(tag, "AV_")
  {
    hide IsRtTag;
    if RtWord(tag) {
      RtIs(tag);
    }
    if subsystem: string, event: string :| IsRtTag(tag, subsystem, event) {
      RtOf(tag, subsystem, event);
    }
  }

  predicate RtWord(w: string) {
    "RT_" <= w && var n := Span(w[3..], IsTagChar); n > 0 && n + 4 < |w| && w[3 + n] == '_'
  }

  lemma {:induction false} RtIs(tag: string)
    requires RtWord(tag)
    ensures exists subsystem: string, event: string :: IsRtTag(tag, subsystem, event)
  {
    hide IsTagChar;
    var w := tag[3..];
    var n := Span(w, IsTagChar);
    assert tag == "RT_" + w && w == w[..n] + ("_" + w[n + 1..]);
    assert IsRtTag(tag, w[..n], w[n + 1..]);
  }

  lemma {:induction false} RtOf(tag: string, subsystem: string, event: string)
    requires IsRtTag(tag, subsystem, event)
    ensures RtWord(tag)
  {
    hide IsTagChar, Span;
    assert tag[3..] == subsystem + ("_" + event);
    UnderscoreSeparates();
    SpanThen(subsystem, "_" + event, IsTagChar);
  }

  lemma {:induction false} UnderscoreSeparates()
    ensures !IsTagChar('_')
  {
  }

  // ------------------------------------------------------------------ a line of the Junos documentation's shape

  const FLOW := "RT_" + ("FLOW" + ("_" + "SESSION_CREATE"))
  const SOURCE := Bare(" ", "source-address", "198.51.100.5")
  const PROTOCOL := Bare(" ", "protocol-id", "6")

  lemma {:induction false} RtTagIs(subsystem: string, event: string)
    requires subsystem != "" && All(subsystem, IsTagChar) && event != "" && All(event, IsWordChar)
    ensures IsFamilyTag("RT_" + (subsystem + ("_" + event)))
  {
    var tag := "RT_" + (subsystem + ("_" + event));
    assert IsRtTag(tag, subsystem, event);
    FamilyIff(tag);
    hide IsFamilyWord;
  }

  lemma {:induction false} FlowIsTag()
    ensures IsFamilyTag(FLOW)
  {
    hide IsFamilyTag;
    RtTagIs("FLOW", "SESSION_CREATE");
  }

  lemma {:induction false} SampleFields()
    ensures GoodField(SOURCE) && GoodField(PROTOCOL)
  {
    hide IsSpace, QuotedEnd;
    assert IsSpace(' ') && !IsSpace('.') by { BlankAndDot(); }
    DigitsVisible();
  }

  lemma {:induction false} BlankAndDot()
    ensures IsSpace(' ') && !IsSpace('.')
  {
  }

  lemma {:induction false} DigitsVisible()
    ensures forall c | '0' <= c <= '9' :: !IsSpace(c)
  {
  }

  /** Unquoted fields reach the event and its tuple. */
  lemma {:induction false} SampleLine(time: real, c: Conversions)
    ensures var event := ParseLine(FLOW + (":" + (" source-address=198.51.100.5" + " protocol-id=6")), time, c);
            && event.Some? && event.value.eventType == FLOW
            && event.value.fiveTuple == FiveTuple(Some("198.51.100.5"), None, Some("TCP"), None, None)
            && event.value.fields == map["source-address" := "198.51.100.5", "protocol-id" := "6"]
  {
    hide ParseLine, GoodField, IsFamilyTag, FLOW, Extract, TupleOf, ClaimsHeader, FreeText, FieldsOf, FieldPairs, Rear;
    SampleFields();
    FlowIsTag();
    assert FreeText("") && !ClaimsHeader("") by { NothingInFront(); }
    LegacyRoundTrip("", FLOW, true, [SOURCE, PROTOCOL], time, c);
    SampleText();
    SampleMap();
    SampleTuple(FieldsOf(FieldPairs([SOURCE, PROTOCOL])), c);
    assert "" + (FLOW + Rear(true, [SOURCE, PROTOCOL])) == FLOW + Rear(true, [SOURCE, PROTOCOL]);
  }

  lemma {:induction false} NothingInFront()
    ensures FreeText("") && !ClaimsHeader("")
  {
  }

  lemma {:induction false} SourceText(rest: string)
    ensures FieldText(SOURCE, rest) == " source-address=198.51.100.5" + rest
  {
    Grouped(" ", "source-address", "=", "198.51.100.5", rest);
    assert " " + ("source-address" + ("=" + "198.51.100.5")) == " source-address=198.51.100.5";
  }

  lemma {:induction false} Grouped(a: string, b: string, c: string, d: string, rest: string)
    ensures a + (b + (c + (d + rest))) == (a + (b + (c + d))) + rest
  {
  }

  lemma {:induction false} ProtocolText()
    ensures FieldText(PROTOCOL, "") == " protocol-id=6"
  {
  }

  lemma {:induction false} TextOfTwo(a: Field, b: Field)
    ensures FieldsText([a, b]) == FieldText(a, FieldText(b, ""))
  {
    hide FieldText;
    assert [a, b][1..] == [b] && [b][1..] == [];
    assert FieldsText([b]) == FieldText(b, FieldsText([]));
  }

  lemma {:induction false} SampleText()
    ensures Rear(true, [SOURCE, PROTOCOL]) == ":" + (" source-address=198.51.100.5" + " protocol-id=6")
  {
    hide FieldText, FieldsText;
    TextOfTwo(SOURCE, PROTOCOL);
    ProtocolText();
    SourceText(" protocol-id=6");
  }

  lemma {:induction false} FieldsOfTwo(x: Pair, y: Pair)
    ensures FieldsOf([x, y]) == map[x.key := x.value][y.key := y.value]
  {
    assert [x, y][..1] == [x] && [x][..0] == [];
    assert FieldsOf([x]) == FieldsOf([])[x.key := x.value];
  }

  lemma {:induction false} PairsOfTwo(a: Field, b: Field)
    ensures FieldPairs([a, b]) == [FieldPair(a), FieldPair(b)]
  {
    hide FieldPair;
    assert [a, b][1..] == [b] && [b][1..] == [];
    assert FieldPairs([b]) == [FieldPair(b)] + FieldPairs([]);
  }

  lemma {:induction false} SampleMap()
    ensures FieldsOf(FieldPairs([SOURCE, PROTOCOL])) == map["source-address" := "198.51.100.5", "protocol-id" := "6"]
  {
    hide FieldsOf;
    var x, y := FieldPair(SOURCE), FieldPair(PROTOCOL);
    PairsOfTwo(SOURCE, PROTOCOL);
    FieldsOfTwo(x, y);
    assert |"source-address"| != |"protocol-id"|;
  }

  lemma {:induction false} SampleTuple(fields: map<string, string>, c: Conversions)
    requires fields == map["source-address" := "198.51.100.5", "protocol-id" := "6"]
    ensures TupleOf(fields, c) == FiveTuple(Some("198.51.100.5"), None, Some("TCP"), None, None)
  {
    TupleIs(fields, c);
    hide First;
  }
}
