/** The syslog collector: framing of the byte stream, the bounded event buffer and its queries. */
module Collector {
  import opened Common
  import opened Telemetry
  import opened Matching
  import opened SyslogParser

  newtype byte = i: int | 0 <= i < 256

  const NEWLINE: byte := 10

  // ------------------------------------------------------------------ framing

  /** Length of the part in front of the first newline. */
  function LineLength(s: seq<byte>): (n: nat)
    ensures n <= |s| && (forall i | 0 <= i < n :: s[i] != NEWLINE) && (n < |s| ==> s[n] == NEWLINE)
  {
    if s == [] || s[0] == NEWLINE then 0 else 1 + LineLength(s[1..])
  }

  /** The newline-terminated frames of a stream. */
  function Frames(s: seq<byte>): seq<seq<byte>> {
    var n := LineLength(s);
    if n == |s| then [] else [s[..n]] + Frames(s[n + 1..])
  }

  /** What follows the last newline. */
  function Unterminated(s: seq<byte>): (r: seq<byte>)
    ensures NEWLINE !in r
  {
    var n := LineLength(s);
    if n == |s| then s else Unterminated(s[n + 1..])
  }

  lemma {:induction false} LineLengthIs(s: seq<byte>, n: nat)
    requires n <= |s| && (forall i | 0 <= i < n :: s[i] != NEWLINE) && (n < |s| ==> s[n] == NEWLINE)
    ensures LineLength(s) == n
  {
  }

  lemma {:induction false} FramesStep(line: seq<byte>, rest: seq<byte>)
    requires NEWLINE !in line
    ensures Frames(line + ([NEWLINE] + rest)) == [line] + Frames(rest)
    ensures Unterminated(line + ([NEWLINE] + rest)) == Unterminated(rest)
  {
    var s := line + ([NEWLINE] + rest);
    LineLengthIs(s, |line|);
    assert s[..|line|] == line && s[|line| + 1..] == rest;
  }

  /** More bytes only continue the unterminated part. */
  lemma {:induction false} FramesAppend(a: seq<byte>, b: seq<byte>)
    ensures Frames(a + b) == Frames(a) + Frames(Unterminated(a) + b)
    ensures Unterminated(a + b) == Unterminated(Unterminated(a) + b)
    decreases |a|
  {
    hide Frames, Unterminated;
    var n := LineLength(a);
    if n == |a| {
      NoFrame(a);
    } else {
      FirstLine(a, b, n);
      FramesAppend(a[n + 1..], b);
      FramesAppendStep(a[..n], a[n + 1..], b);
    }
  }

  lemma {:induction false} NoFrame(s: seq<byte>)
    requires LineLength(s) == |s|
    ensures Frames(s) == [] && Unterminated(s) == s
  {
  }

  lemma {:induction false} FramesAppendStep(line: seq<byte>, rest: seq<byte>, b: seq<byte>)
    requires NEWLINE !in line && Frames(rest + b) == Frames(rest) + Frames(Unterminated(rest) + b)
    ensures var a := line + ([NEWLINE] + rest);
            Frames(line + ([NEWLINE] + (rest + b))) == Frames(a) + Frames(Unterminated(a) + b)
    ensures var a := line + ([NEWLINE] + rest);
            && Unterminated(line + ([NEWLINE] + (rest + b))) == Unterminated(rest + b)
            && Unterminated(a) == Unterminated(rest)
  {
    hide Frames, Unterminated;
    FramesStep(line, rest);
    FramesStep(line, rest + b);
  }

  lemma {:induction false} FirstLine(a: seq<byte>, b: seq<byte>, n: nat)
    requires n < |a| && a[n] == NEWLINE
    ensures a == a[..n] + ([NEWLINE] + a[n + 1..])
    ensures a + b == a[..n] + ([NEWLINE] + (a[n + 1..] + b))
  {
  }

  function Unframe(frames: seq<seq<byte>>): seq<byte> {
    if frames == [] then [] else frames[0] + ([NEWLINE] + Unframe(frames[1..]))
  }

  /** Framing loses nothing and invents nothing. */
  lemma {:induction false} FramingIsExact(s: seq<byte>)
    ensures Unframe(Frames(s)) + Unterminated(s) == s
    ensures forall i | 0 <= i < |Frames(s)| :: NEWLINE !in Frames(s)[i]
    decreases |s|
  {
    hide LineLength;
    var n := LineLength(s);
    if n < |s| {
      var rest, line := s[n + 1..], s[..n];
      FramingIsExact(rest);
      assert Frames(s) == [line] + Frames(rest) && Unterminated(s) == Unterminated(rest);
      hide Frames, Unterminated;
      assert s == line + ([NEWLINE] + rest);
      UnframeCons(line, Frames(rest), Unterminated(rest));
    }
  }

  lemma {:induction false} UnframeCons(line: seq<byte>, frames: seq<seq<byte>>, end: seq<byte>)
    ensures Unframe([line] + frames) + end == line + ([NEWLINE] + (Unframe(frames) + end))
  {
  }

  // ------------------------------------------------------------------ events of frames

  /** Decoding and line splitting of one frame, and the conversions of the parser. */
  datatype Reader = Reader(linesOf: seq<byte> -> seq<string>, conversions: Conversions)

  function ParsedLines(lines: seq<string>, time: real, c: Conversions): seq<TelemetryEvent> {
    if lines == [] then [] else
    (match ParseLine(lines[0], time, c) case None => [] case Some(e) => [e]) + ParsedLines(lines[1..], time, c)
  }

  lemma {:induction false} NoLines(all: seq<TelemetryEvent>, time: real, c: Conversions)
    ensures all + ParsedLines([], time, c) == all
  {
  }

  lemma {:induction false} NextLine(all: seq<TelemetryEvent>, lines: seq<string>, i: nat, time: real, c: Conversions)
    requires i < |lines|
    ensures var rest := ParsedLines(lines[i + 1..], time, c);
            all + ParsedLines(lines[i..], time, c) ==
            match ParseLine(lines[i], time, c) case None => all + rest case Some(e) => (all + [e]) + rest
  {
    hide ParseLine;
    assert lines[i..][1..] == lines[i + 1..];
    var rest := ParsedLines(lines[i + 1..], time, c);
    match ParseLine(lines[i], time, c)
    case None => assert [] + rest == rest;
    case Some(e) => assert all + ([e] + rest) == (all + [e]) + rest;
  }

  /** The events of a datagram or frame received at `time`. */
  function ParsedFrame(data: seq<byte>, time: real, reader: Reader): seq<TelemetryEvent> {
    ParsedLines(reader.linesOf(data), time, reader.conversions)
  }

  /** The events of frames, the k-th of them received at `clock(first + k)`. */
  function ParsedFrames(frames: seq<seq<byte>>, first: nat, clock: nat -> real, reader: Reader): seq<TelemetryEvent> {
    if frames == [] then []
    else ParsedFrame(frames[0], clock(first), reader) + ParsedFrames(frames[1..], first + 1, clock, reader)
  }

  lemma {:induction false} ParsedFramesAppend(
      a: seq<seq<byte>>, b: seq<seq<byte>>, first: nat, clock: nat -> real, reader: Reader)
    ensures ParsedFrames(a + b, first, clock, reader) ==
            ParsedFrames(a, first, clock, reader) + ParsedFrames(b, first + |a|, clock, reader)
    decreases |a|
  {
    hide ParsedFrame;
    if a == [] {
      assert a + b == b;
    } else {
      assert (a + b)[1..] == a[1..] + b;
      ParsedFramesAppend(a[1..], b, first + 1, clock, reader);
    }
  }

  /** The events that are there. */
  function Present(found: seq<Option<TelemetryEvent>>): seq<TelemetryEvent> {
    if found == [] then [] else (match found[0] case None => [] case Some(e) => [e]) + Present(found[1..])
  }

  lemma {:induction false} AllPresent(found: seq<Option<TelemetryEvent>>)
    requires forall i | 0 <= i < |found| :: found[i].Some?
    ensures |Present(found)| == |found| && forall i | 0 <= i < |found| :: Present(found)[i] == found[i].value
  {
    if found != [] {
      AllPresent(found[1..]);
    }
  }

  lemma {:induction false} OneLineFrame(frame: seq<byte>, line: string, time: real, reader: Reader)
    requires reader.linesOf(frame) == [line]
    ensures ParsedFrame(frame, time, reader) == Present([ParseLine(line, time, reader.conversions)])
  {
    hide ParseLine;
    var found := ParseLine(line, time, reader.conversions);
    assert [line][1..] == [] && [found][1..] == [];
    assert ParsedLines([], time, reader.conversions) == [] && Present([]) == [];
    assert ParsedLines([line], time, reader.conversions) == (match found case None => [] case Some(e) => [e]) + [];
    assert Present([found]) == (match found case None => [] case Some(e) => [e]) + [];
  }

  lemma {:induction false} PresentCons(e: Option<TelemetryEvent>, rest: seq<Option<TelemetryEvent>>)
    ensures Present([e] + rest) == Present([e]) + Present(rest)
  {
    assert ([e] + rest)[1..] == rest && [e][1..] == [];
  }

  /** A clean stream: frames without newline, each the bytes of one line. */
  predicate CleanFrames(frames: seq<seq<byte>>, lines: seq<string>, reader: Reader) {
    && |lines| == |frames|
    && forall i | 0 <= i < |frames| :: NEWLINE !in frames[i] && reader.linesOf(frames[i]) == [lines[i]]
  }

  /** Terminated frames are cut apart again. */
  lemma {:induction false} UnframedAreFrames(frames: seq<seq<byte>>)
    requires forall i | 0 <= i < |frames| :: NEWLINE !in frames[i]
    ensures Frames(Unframe(frames)) == frames && Unterminated(Unframe(frames)) == []
  {
    hide Frames, Unterminated;
    if frames == [] {
      NoFrame([]);
    } else {
      UnframedAreFrames(frames[1..]);
      FramesStep(frames[0], Unframe(frames[1..]));
      assert [frames[0]] + frames[1..] == frames;
    }
  }

  /** What each line parses to when frame `k` is read at `clock(first + k)`. */
  predicate ParsedAt(
      lines: seq<string>, found: seq<Option<TelemetryEvent>>, first: nat, clock: nat -> real, c: Conversions) {
    |found| == |lines| && forall i | 0 <= i < |lines| :: found[i] == ParseLine(lines[i], clock(first + i), c)
  }

  lemma {:induction false} ParsedAtRest(
      lines: seq<string>, found: seq<Option<TelemetryEvent>>, first: nat, clock: nat -> real, c: Conversions)
    requires ParsedAt(lines, found, first, clock, c) && lines != []
    ensures found[0] == ParseLine(lines[0], clock(first), c)
    ensures ParsedAt(lines[1..], found[1..], first + 1, clock, c)
  {
    hide ParseLine;
    assert first + 0 == first;
    forall i: nat | i < |lines| - 1 ensures found[1..][i] == ParseLine(lines[1..][i], clock(first + 1 + i), c) {
      assert first + (i + 1) == first + 1 + i;
    }
  }

  lemma {:induction false} CleanRest(frames: seq<seq<byte>>, lines: seq<string>, reader: Reader)
    requires CleanFrames(frames, lines, reader) && frames != []
    ensures reader.linesOf(frames[0]) == [lines[0]] && CleanFrames(frames[1..], lines[1..], reader)
  {
  }

  /** Each line of a clean stream gives the event it parses to, in order, at the time its frame was read. */
  lemma {:induction false} LinesBecomeEvents(
      frames: seq<seq<byte>>, lines: seq<string>, found: seq<Option<TelemetryEvent>>, first: nat, clock: nat -> real,
      reader: Reader)
    requires CleanFrames(frames, lines, reader) && ParsedAt(lines, found, first, clock, reader.conversions)
    ensures ParsedFrames(frames, first, clock, reader) == Present(found)
    decreases |frames|
  {
    hide ParseLine, ParsedFrame, Present;
    if frames == [] {
      assert Present([]) == [] by { AllPresent([]); }
    } else {
      ParsedAtRest(lines, found, first, clock, reader.conversions);
      CleanRest(frames, lines, reader);
      hide ParsedAt, CleanFrames;
      OneLineFrame(frames[0], lines[0], clock(first), reader);
      LinesBecomeEvents(frames[1..], lines[1..], found[1..], first + 1, clock, reader);
      PresentCons(found[0], found[1..]);
      assert [found[0]] + found[1..] == found;
    }
  }

  /** From the bytes of a clean stream to its events: one for every line that parses, in order. */
  lemma {:induction false} StreamBecomesEvents(
      frames: seq<seq<byte>>, lines: seq<string>, found: seq<Option<TelemetryEvent>>, clock: nat -> real,
      reader: Reader)
    requires CleanFrames(frames, lines, reader) && ParsedAt(lines, found, 0, clock, reader.conversions)
    ensures ParsedFrames(Frames(Unframe(frames)), 0, clock, reader) == Present(found)
    ensures Unterminated(Unframe(frames)) == []
  {
    hide Frames, ParsedFrames, Present, Unterminated, Unframe, ParsedAt;
    UnframedAreFrames(frames);
    LinesBecomeEvents(frames, lines, found, 0, clock, reader);
  }

  predicate SameButTime(a: TelemetryEvent, b: TelemetryEvent) {
    a == b.(timestamp := a.timestamp)
  }

  predicate AllSameButTime(a: seq<TelemetryEvent>, b: seq<TelemetryEvent>) {
    |a| == |b| && forall i | 0 <= i < |a| :: SameButTime(a[i], b[i])
  }

  lemma {:induction false} LinesSameButTime(lines: seq<string>, s: real, t: real, c: Conversions)
    ensures AllSameButTime(ParsedLines(lines, s, c), ParsedLines(lines, t, c))
  {
    hide ParseRecord, FieldsOf;
    if lines != [] {
      LinesSameButTime(lines[1..], s, t, c);
    }
  }

  /** The clock reaches nothing but the timestamps. */
  lemma {:induction false} FramesSameButTime(
      frames: seq<seq<byte>>, i: nat, j: nat, s: nat -> real, t: nat -> real, reader: Reader)
    ensures AllSameButTime(ParsedFrames(frames, i, s, reader), ParsedFrames(frames, j, t, reader))
    decreases frames
  {
    hide ParsedLines;
    if frames != [] {
      LinesSameButTime(reader.linesOf(frames[0]), s(i), t(j), reader.conversions);
      FramesSameButTime(frames[1..], i + 1, j + 1, s, t, reader);
    }
  }

  // ------------------------------------------------------------------ what a connection delivers

  /** One `recv`: bytes, nothing yet, a failure, or (no bytes) the end of the stream. */
  datatype Received = Chunk(bytes: seq<byte>) | TimedOut | Failed

  predicate Ends(r: Received) {
    r.Failed? || (r.Chunk? && r.bytes == [])
  }

  /** The bytes a connection delivers until it fails, ends or is stopped. */
  function Delivered(received: seq<Received>): seq<byte> {
    if received == [] || Ends(received[0]) then []
    else (if received[0].Chunk? then received[0].bytes else []) + Delivered(received[1..])
  }

  predicate Arrived(r: Received) {
    !r.TimedOut?
  }

  /** Waiting in vain changes nothing in what a connection delivers. */
  lemma {:induction false} TimeoutsDoNotMatter(received: seq<Received>)
    ensures Delivered(Filter(received, Arrived)) == Delivered(received)
  {
    if received != [] {
      TimeoutsDoNotMatter(received[1..]);
      var rest := Filter(received[1..], Arrived);
      if Arrived(received[0]) {
        assert ([received[0]] + rest)[1..] == rest;
      } else {
        assert [] + rest == rest && [] + Delivered(received[1..]) == Delivered(received[1..]);
      }
    }
  }

  function Chunks(cs: seq<seq<byte>>): seq<Received> {
    if cs == [] then [] else [Chunk(cs[0])] + Chunks(cs[1..])
  }

  function Concatenated(cs: seq<seq<byte>>): seq<byte> {
    if cs == [] then [] else cs[0] + Concatenated(cs[1..])
  }

  /** A connection delivers the bytes of its chunks up to its end or failure, whatever would come after that. */
  lemma {:induction false} ChunksAreDelivered(cs: seq<seq<byte>>, end: Received, after: seq<Received>)
    requires (forall i | 0 <= i < |cs| :: cs[i] != []) && (end == Failed || end == Chunk([]))
    ensures Delivered(Chunks(cs) + ([end] + after)) == Concatenated(cs)
  {
    if cs == [] {
      assert Chunks(cs) + ([end] + after) == [end] + after;
    } else {
      var rest := Chunks(cs[1..]) + ([end] + after);
      ChunksAreDelivered(cs[1..], end, after);
      assert Chunks(cs) + ([end] + after) == [Chunk(cs[0])] + rest;
      assert ([Chunk(cs[0])] + rest)[1..] == rest;
    }
  }

  // ------------------------------------------------------------------ queries

  datatype Query = Query(
    eventType: Option<string>, fiveTuple: Option<FiveTuple>, startTime: Option<real>, endTime: Option<real>)

  predicate Selects(q: Query, rules: Rules, e: TelemetryEvent) {
    && (q.eventType.Some? ==> e.eventType == q.eventType.value)
    && (q.fiveTuple.Some? ==> ObservationMatches(q.fiveTuple.value, e.fiveTuple, rules))
    && (q.startTime.Some? ==> e.timestamp >= q.startTime.value)
    && (q.endTime.Some? ==> e.timestamp <= q.endTime.value)
  }

  function Selected(q: Query, rules: Rules, events: seq<TelemetryEvent>): seq<TelemetryEvent> {
    if events == [] then []
    else (if Selects(q, rules, events[0]) then [events[0]] else []) + Selected(q, rules, events[1..])
  }

  lemma {:induction false} SelectedAppend(q: Query, rules: Rules, a: seq<TelemetryEvent>, e: TelemetryEvent)
    ensures Selected(q, rules, a + [e]) == Selected(q, rules, a) + if Selects(q, rules, e) then [e] else []
  {
    hide Selects;
    if a != [] {
      assert (a + [e])[1..] == a[1..] + [e];
      SelectedAppend(q, rules, a[1..], e);
    }
  }

  const ANY := Query(None, None, None, None)

  lemma {:induction false} SelectedIsFilter(
      q: Query, rules: Rules, events: seq<TelemetryEvent>, p: TelemetryEvent -> bool)
    requires forall e: TelemetryEvent :: Selects(q, rules, e) <==> p(e)
    ensures Selected(q, rules, events) == Filter(events, p)
  {
    hide Selects;
    if events != [] {
      SelectedIsFilter(q, rules, events[1..], p);
    }
  }

  /** Each filter by itself: a type, a tuple, and a bound of the time on either side, the bound included. */
  lemma {:induction false} EachFilter(
      rules: Rules, events: seq<TelemetryEvent>, eventType: string, tuple: FiveTuple, time: real)
    ensures Selected(ANY.(eventType := Some(eventType)), rules, events) ==
            Filter(events, (e: TelemetryEvent) => e.eventType == eventType)
    ensures Selected(ANY.(fiveTuple := Some(tuple)), rules, events) ==
            Filter(events, (e: TelemetryEvent) => ObservationMatches(tuple, e.fiveTuple, rules))
    ensures Selected(ANY.(startTime := Some(time)), rules, events) ==
            Filter(events, (e: TelemetryEvent) => time <= e.timestamp)
    ensures Selected(ANY.(endTime := Some(time)), rules, events) ==
            Filter(events, (e: TelemetryEvent) => e.timestamp <= time)
    ensures Selected(ANY, rules, events) == events
  {
    hide ObservationMatches, Selected, Filter;
    SelectedIsFilter(ANY.(eventType := Some(eventType)), rules, events,
                     (e: TelemetryEvent) => e.eventType == eventType);
    SelectedIsFilter(ANY.(fiveTuple := Some(tuple)), rules, events,
                     (e: TelemetryEvent) => ObservationMatches(tuple, e.fiveTuple, rules));
    SelectedIsFilter(ANY.(startTime := Some(time)), rules, events, (e: TelemetryEvent) => time <= e.timestamp);
    SelectedIsFilter(ANY.(endTime := Some(time)), rules, events, (e: TelemetryEvent) => e.timestamp <= time);
    SelectedIsFilter(ANY, rules, events, (e: TelemetryEvent) => true);
    FilterAll(events, (e: TelemetryEvent) => true);
  }

  /** The filters of both queries. */
  function Both(p: Query, q: Query): Query {
    Query(if p.eventType.Some? then p.eventType else q.eventType,
          if p.fiveTuple.Some? then p.fiveTuple else q.fiveTuple,
          if p.startTime.Some? then p.startTime else q.startTime,
          if p.endTime.Some? then p.endTime else q.endTime)
  }

  /** The queries filter by different things. */
  predicate Apart(p: Query, q: Query) {
    && (p.eventType.None? || q.eventType.None?) && (p.fiveTuple.None? || q.fiveTuple.None?)
    && (p.startTime.None? || q.startTime.None?) && (p.endTime.None? || q.endTime.None?)
  }

  /** Filters combine: asking for both is asking for one among the answers to the other. */
  lemma {:induction false} FiltersCombine(p: Query, q: Query, rules: Rules, events: seq<TelemetryEvent>)
    requires Apart(p, q)
    ensures Selected(Both(p, q), rules, events) == Selected(p, rules, Selected(q, rules, events))
  {
    if events != [] {
      FiltersCombine(p, q, rules, events[1..]);
      BothSelects(p, q, rules, events[0]);
      hide Selects, Both, Apart;
      var rest := Selected(q, rules, events[1..]);
      if Selects(q, rules, events[0]) {
        assert ([events[0]] + rest)[1..] == rest;
      } else {
        assert [] + rest == rest;
      }
    }
  }

  lemma {:induction false} BothSelects(p: Query, q: Query, rules: Rules, e: TelemetryEvent)
    requires Apart(p, q)
    ensures Selects(Both(p, q), rules, e) <==> Selects(p, rules, e) && Selects(q, rules, e)
  {
    hide ObservationMatches;
  }

  // ------------------------------------------------------------------ the collector

  class SyslogCollector {
    const maxEvents: nat
    var events: seq<TelemetryEvent>
    var dropped: nat
    /** Everything added since the last `Clear`, and what had been dropped before it. */
    ghost var added: seq<TelemetryEvent>
    ghost var droppedBefore: nat

    ghost predicate Valid()
      reads this
    {
      && maxEvents > 0
      && events == Tail(added, maxEvents)
      && dropped + |events| == droppedBefore + |added|
    }

    constructor (maxEvents: nat)
      requires maxEvents > 0
      ensures Valid() && this.maxEvents == maxEvents && added == [] && dropped == 0
    {
      this.maxEvents, events, dropped, added, droppedBefore := maxEvents, [], 0, [], 0;
    }

    method AddEvent(e: TelemetryEvent)
      requires Valid()
      modifies this`events, this`dropped, this`added
      ensures Valid() && added == old(added) + [e]
    {
      TailOfAppend(added, [e], maxEvents);
      hide Tail;
      if |events| == maxEvents {
        dropped := dropped + 1;
      }
      events := Tail(events + [e], maxEvents);
      added := added + [e];
    }

    method Clear()
      requires Valid()
      modifies this`events, this`added, this`droppedBefore
      ensures Valid() && events == [] && added == [] && dropped == old(dropped)
    {
      events, added, droppedBefore := [], [], dropped;
    }

    /** The newest events added since the last clear, oldest first. */
    method Snapshot() returns (r: seq<TelemetryEvent>)
      requires Valid()
      ensures r == Tail(added, maxEvents)
    {
      r := events;
    }

    /** The buffered events that pass every given filter, in order. */
    method RunQuery(q: Query, rules: Rules) returns (out: seq<TelemetryEvent>)
      ensures out == Selected(q, rules, events)
    {
      hide ObservationMatches;
      out := [];
      for i := 0 to |events|
        invariant out == Selected(q, rules, events[..i])
      {
        var e := events[i];
        assert events[..i + 1] == events[..i] + [e];
        SelectedAppend(q, rules, events[..i], e);
        if q.eventType.Some? && e.eventType != q.eventType.value {
          continue;
        }
        if q.fiveTuple.Some? && !ObservationMatches(q.fiveTuple.value, e.fiveTuple, rules) {
          continue;
        }
        if q.startTime.Some? && e.timestamp < q.startTime.value {
          continue;
        }
        if q.endTime.Some? && e.timestamp > q.endTime.value {
          continue;
        }
        out := out + [e];
      }
      assert events[..|events|] == events;
    }

    /** Parses and adds every line of a datagram or frame. */
    method Ingest(data: seq<byte>, time: real, reader: Reader)
      requires Valid()
      modifies this`events, this`dropped, this`added
      ensures Valid() && added == old(added) + ParsedFrame(data, time, reader)
    {
      hide Valid, ParseLine, ParsedLines;
      var lines := reader.linesOf(data);
      ghost var before := added;
      assert lines[0..] == lines;
      for i := 0 to |lines|
        invariant Valid()
        invariant added + ParsedLines(lines[i..], time, reader.conversions)
               == before + ParsedLines(lines, time, reader.conversions)
      {
        NextLine(added, lines, i, time, reader.conversions);
        var event := ParseSyslogLine(lines[i], time, reader.conversions);
        if event.Some? {
          AddEvent(event.value);
        }
      }
      assert lines[|lines|..] == [];
      NoLines(added, time, reader.conversions);
    }

    /** Ingests every complete frame of the buffered bytes, and returns the rest. */
    method IngestFrames(
        bytes: seq<byte>, first: nat, clock: nat -> real, reader: Reader) returns (buf: seq<byte>, next: nat)
      requires Valid()
      modifies this`events, this`dropped, this`added
      ensures Valid() && buf == Unterminated(bytes) && next == first + |Frames(bytes)|
      ensures added == old(added) + ParsedFrames(Frames(bytes), first, clock, reader)
    {
      hide Valid, ParsedFrame, LineLength;
      buf, next := bytes, first;
      ghost var before := added;
      var n := LineLength(buf);
      while n < |buf|
        invariant Valid() && n == LineLength(buf)
        invariant Unterminated(buf) == Unterminated(bytes) && next + |Frames(buf)| == first + |Frames(bytes)|
        invariant added + ParsedFrames(Frames(buf), next, clock, reader)
               == before + ParsedFrames(Frames(bytes), first, clock, reader)
        decreases |buf|
      {
        var line := buf[..n];
        assert Frames(buf) == [line] + Frames(buf[n + 1..]) && Frames(buf)[1..] == Frames(buf[n + 1..]);
        Ingest(line, clock(next), reader);
        buf, next := buf[n + 1..], next + 1;
        n := LineLength(buf);
      }
    }

    /** Appends a chunk to the unterminated rest of what came `before` and ingests the frames it completes. */
    method TakeChunk(
        ghost before: seq<byte>, buf: seq<byte>, first: nat, bytes: seq<byte>, clock: nat -> real, reader: Reader)
      returns (rest: seq<byte>, next: nat)
      requires Valid() && buf == Unterminated(before) && first == |Frames(before)|
      modifies this`events, this`dropped, this`added
      ensures Valid() && rest == Unterminated(before + bytes) && next == |Frames(before + bytes)|
      ensures added == old(added) + ParsedFrames(Frames(buf + bytes), first, clock, reader)
      ensures ParsedFrames(Frames(before + bytes), 0, clock, reader) ==
              ParsedFrames(Frames(before), 0, clock, reader) + ParsedFrames(Frames(buf + bytes), first, clock, reader)
    {
      hide Valid, ParsedFrames, Frames, Unterminated;
      MoreFrames(before, bytes, clock, reader);
      rest, next := IngestFrames(buf + bytes, first, clock, reader);
    }

    /** One connection, whatever its bytes are cut into. */
    method RunConnection(received: seq<Received>, clock: nat -> real, reader: Reader) returns (buf: seq<byte>)
      requires Valid()
      modifies this`events, this`dropped, this`added
      ensures Valid() && buf == Unterminated(Delivered(received))
      ensures added == old(added) + ParsedFrames(Frames(Delivered(received)), 0, clock, reader)
    {
      hide Valid, ParsedFrames, Frames, Unterminated, Delivered;
      buf := [];
      var next := 0;
      ghost var before, done := added, [];
      NothingReceived(clock, reader);
      assert received[0..] == received;
      for i := 0 to |received|
        invariant Valid() && buf == Unterminated(done) && next == |Frames(done)|
        invariant done + Delivered(received[i..]) == Delivered(received)
        invariant added == before + ParsedFrames(Frames(done), 0, clock, reader)
      {
        DeliveredNext(received, i);
        if received[i].TimedOut? {
          continue;
        }
        if received[i].Failed? || received[i].bytes == [] {
          assert done + [] == done;
          return;
        }
        var bytes := received[i].bytes;
        buf, next := TakeChunk(done, buf, next, bytes, clock, reader);
        done := done + bytes;
      }
      assert received[|received|..] == [];
      NothingDelivered();
      assert done + [] == done;
    }
  }

  lemma {:induction false} DeliveredNext(received: seq<Received>, i: nat)
    requires i < |received|
    ensures Delivered(received[i..]) ==
            if Ends(received[i]) then []
            else (if received[i].Chunk? then received[i].bytes else []) + Delivered(received[i + 1..])
  {
    assert received[i..][1..] == received[i + 1..];
  }

  lemma {:induction false} NothingDelivered()
    ensures Delivered([]) == []
  {
  }

  lemma {:induction false} NothingReceived(clock: nat -> real, reader: Reader)
    ensures Frames([]) == [] && Unterminated([]) == [] && ParsedFrames([], 0, clock, reader) == []
  {
  }

  lemma {:induction false} MoreFrames(done: seq<byte>, bytes: seq<byte>, clock: nat -> real, reader: Reader)
    ensures var rest := Unterminated(done) + bytes;
            && Unterminated(done + bytes) == Unterminated(rest)
            && |Frames(done + bytes)| == |Frames(done)| + |Frames(rest)|
            && ParsedFrames(Frames(done + bytes), 0, clock, reader) ==
               ParsedFrames(Frames(done), 0, clock, reader) + ParsedFrames(Frames(rest), |Frames(done)|, clock, reader)
  {
    hide ParsedFrames, Frames, Unterminated;
    FramesAppend(done, bytes);
    ParsedFramesAppend(Frames(done), Frames(Unterminated(done) + bytes), 0, clock, reader);
  }

  /**
    * However the same bytes are cut, and at whatever times they arrive: two collectors that held the same events,
    * timestamps aside, hold the same events afterwards, timestamps aside.
    */
  lemma {:induction false} ChunkingIndependence(
      x: seq<TelemetryEvent>, y: seq<TelemetryEvent>, a: seq<Received>, b: seq<Received>,
      s: nat -> real, t: nat -> real, reader: Reader, max: nat)
    requires AllSameButTime(x, y) && Delivered(a) == Delivered(b)
    ensures AllSameButTime(Tail(x + ParsedFrames(Frames(Delivered(a)), 0, s, reader), max),
                           Tail(y + ParsedFrames(Frames(Delivered(b)), 0, t, reader), max))
  {
    hide Frames, ParsedFrames, Delivered, AllSameButTime, Tail;
    FramesSameButTime(Frames(Delivered(a)), 0, 0, s, t, reader);
    SameTail(x, y, ParsedFrames(Frames(Delivered(a)), 0, s, reader),
             ParsedFrames(Frames(Delivered(b)), 0, t, reader), max);
  }

  lemma {:induction false} SameTail(
      a: seq<TelemetryEvent>, b: seq<TelemetryEvent>, c: seq<TelemetryEvent>, d: seq<TelemetryEvent>, n: nat)
    requires AllSameButTime(a, b) && AllSameButTime(c, d)
    ensures AllSameButTime(Tail(a + c, n), Tail(b + d, n))
  {
    hide SameButTime, Tail;
    SameAppend(a, b, c, d);
    var u, v := a + c, b + d;
    SameDrop(u, v, |u| - |Tail(u, n)|);
  }

  lemma {:induction false} SameAppend(
      a: seq<TelemetryEvent>, b: seq<TelemetryEvent>, c: seq<TelemetryEvent>, d: seq<TelemetryEvent>)
    requires AllSameButTime(a, b) && AllSameButTime(c, d)
    ensures AllSameButTime(a + c, b + d)
  {
    hide SameButTime;
  }

  lemma {:induction false} SameDrop(u: seq<TelemetryEvent>, v: seq<TelemetryEvent>, k: nat)
    requires AllSameButTime(u, v) && k <= |u|
    ensures AllSameButTime(u[k..], v[k..])
  {
    hide SameButTime;
  }
}
