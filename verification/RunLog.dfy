/** The log of one dashboard run: a bounded ring of numbered events, bounded subscriber queues, one terminal event. */
module RunLog {
  import opened Common

  /** Bounds of one run; the dashboard's own values are in DEFAULT_BOUNDS. */
  datatype Bounds = Bounds(maxLines: nat, maxLineChars: nat, queueSize: nat, maxSubscribers: nat)

  const DEFAULT_BOUNDS := Bounds(2000, 4096, 256, 16)

  datatype Counts = Counts(passed: nat, failed: nat, total: nat)

  datatype Data =
    | Text(line: string)
    | Notice
    | Outcome(rc: int, batch: Option<Counts>, historyError: bool)

  datatype Kind = Log | Reset | End

  datatype Event = Event(id: nat, kind: Kind, data: Data)

  /** What a subscriber queue carries: events, and the marker that ends a session early. */
  datatype Item = Deliver(event: Event) | Marker

  const RESET := Event(0, Reset, Notice)

  /**
    * The state of a run, with every queue that was ever handed out (`queues`) and the
    * unbounded `history` of published events, of which the ring keeps a tail.
    */
  datatype RunState<!Q(==)> = RunState(
    bounds: Bounds,
    history: seq<Event>,
    sequence: nat,
    events: seq<Event>,
    lines: seq<string>,
    terminal: Option<Event>,
    subscribers: set<Q>,
    queues: map<Q, seq<Item>>)

  function NewRun<Q>(bounds: Bounds): RunState<Q> {
    RunState(bounds, [], 0, [], [], None, {}, map[])
  }

  /** A full queue is emptied and left with the marker. */
  function Offer(items: seq<Item>, e: Event, size: nat): seq<Item> {
    if |items| < size then items + [Deliver(e)] else [Marker]
  }

  function Publish<Q>(s: RunState<Q>, kind: Kind, data: Data): RunState<Q>
    requires s.subscribers <= s.queues.Keys
  {
    var e := Event(s.sequence + 1, kind, data);
    s.(history := s.history + [e],
       sequence := s.sequence + 1,
       events := Tail(s.events + [e], s.bounds.maxLines),
       subscribers := (set q | q in s.subscribers && |s.queues[q]| < s.bounds.queueSize),
       queues := (map q | q in s.queues ::
                    if q in s.subscribers then Offer(s.queues[q], e, s.bounds.queueSize) else s.queues[q]))
  }

  function Clip(line: string, n: nat): (r: string)
    ensures r <= line && |r| == if |line| <= n then |line| else n
  {
    if |line| <= n then line else line[..n]
  }

  function Emit<Q>(s: RunState<Q>, line: string): RunState<Q>
    requires s.subscribers <= s.queues.Keys
  {
    if s.terminal.Some? then s else
    var text := Clip(line, s.bounds.maxLineChars);
    Publish(s.(lines := Tail(s.lines + [text], s.bounds.maxLines)), Log, Text(text))
  }

  /** What recording the batch of a run came to, for the terminal event. */
  datatype Recording = NotABatch | Recorded(counts: Counts) | Unsaved

  function Finish<Q>(s: RunState<Q>, rc: int, recording: Recording): RunState<Q>
    requires s.subscribers <= s.queues.Keys
  {
    if s.terminal.Some? then s else
    var outcome := Outcome(rc, if recording.Recorded? then Some(recording.counts) else None, recording.Unsaved?);
    var s' := Publish(s, End, outcome);
    s'.(terminal := Some(Event(s.sequence + 1, End, outcome)))
  }

  /** The retained events after `lastId`. */
  function EventsAfter(events: seq<Event>, lastId: nat): seq<Event> {
    Filter(events, (e: Event) => e.id > lastId)
  }

  /** What a subscriber is sent at once. */
  function Backlog<Q>(s: RunState<Q>, lastId: nat): seq<Event> {
    var backlog :=
      if s.events != [] && (lastId < s.events[0].id - 1 || lastId > s.sequence) then [RESET] + s.events
      else EventsAfter(s.events, lastId);
    if s.terminal.Some? && s.terminal.value !in backlog then backlog + [s.terminal.value] else backlog
  }

  predicate Refuses<Q>(s: RunState<Q>) {
    |s.subscribers| >= s.bounds.maxSubscribers
  }

  /** Registering the new queue `q`; a finished run registers nothing. */
  function Subscribe<Q>(s: RunState<Q>, q: Q): RunState<Q>
    requires q !in s.queues
  {
    s.(queues := s.queues[q := []],
       subscribers := if s.terminal.Some? then s.subscribers else s.subscribers + {q})
  }

  function Unsubscribe<Q>(s: RunState<Q>, q: Q): RunState<Q> {
    s.(subscribers := s.subscribers - {q})
  }

  // ------------------------------------------------------------------ what every operation keeps

  /** The texts of the log events, oldest first. */
  function LogLines(history: seq<Event>): seq<string> {
    if history == [] then [] else
    var e := history[|history| - 1];
    LogLines(history[..|history| - 1]) + if e.data.Text? then [e.data.line] else []
  }

  /** Event `i` is number `i + 1` and a log event, unless it is the last one and the terminal. */
  predicate Numbered(history: seq<Event>, terminal: Option<Event>) {
    && (forall i | 0 <= i < |history| :: NumberedAt(history[i], i, |history|, terminal))
    && (terminal.Some? ==> history != [] && terminal.value == history[|history| - 1] && terminal.value.kind == End)
  }

  predicate NumberedAt(e: Event, i: nat, n: nat, terminal: Option<Event>) {
    && e.id == i + 1
    && (e.kind == Log <==> e.data.Text?)
    && (e.kind == Log || (i == n - 1 && terminal == Some(e)))
  }

  predicate Valid<Q>(s: RunState<Q>) {
    && s.bounds.maxLines > 0 && s.bounds.queueSize > 0
    && Numbered(s.history, s.terminal)
    && s.sequence == |s.history|
    && s.events == Tail(s.history, s.bounds.maxLines)
    && s.lines == Tail(LogLines(s.history), s.bounds.maxLines)
    && s.subscribers <= s.queues.Keys
    && |s.subscribers| <= s.bounds.maxSubscribers
    && (forall q | q in s.queues :: |s.queues[q]| <= s.bounds.queueSize)
  }

  lemma {:induction false} PublishBounds<Q>(s: RunState<Q>, kind: Kind, data: Data)
    requires s.subscribers <= s.queues.Keys && s.bounds.queueSize > 0 && s.events == Tail(s.history, s.bounds.maxLines)
    requires forall q | q in s.queues :: |s.queues[q]| <= s.bounds.queueSize
    ensures var s' := Publish(s, kind, data);
            && s'.queues.Keys == s.queues.Keys && s'.subscribers <= s.subscribers
            && |s'.subscribers| <= |s.subscribers|
            && (forall q | q in s'.queues :: |s'.queues[q]| <= s.bounds.queueSize)
            && s'.history == s.history + [Event(s.sequence + 1, kind, data)] && s'.sequence == s.sequence + 1
            && s'.events == Tail(s'.history, s.bounds.maxLines)
            && s'.bounds == s.bounds && s'.lines == s.lines && s'.terminal == s.terminal
  {
    hide Tail;
    var s' := Publish(s, kind, data);
    SubsetCardinality(s'.subscribers, s.subscribers);
    TailOfAppend(s.history, [Event(s.sequence + 1, kind, data)], s.bounds.maxLines);
  }

  lemma {:induction false} SubsetCardinality<T>(a: set<T>, b: set<T>)
    requires a <= b
    ensures |a| <= |b|
  {
    if a != {} {
      var x :| x in a;
      SubsetCardinality(a - {x}, b - {x});
    }
  }

  lemma {:induction false} NumberedAppend(h: seq<Event>, kind: Kind, data: Data)
    requires Numbered(h, None)
    requires (kind == Log && data.Text?) || (kind == End && data.Outcome?)
    ensures var e := Event(|h| + 1, kind, data);
            && Numbered(h + [e], if kind == End then Some(e) else None)
            && LogLines(h + [e]) == LogLines(h) + if data.Text? then [data.line] else []
  {
  }

  /** Emitting appends one event to the history, and the rings stay the tails of all that was emitted. */
  lemma {:induction false} EmitKeepsValid<Q>(s: RunState<Q>, line: string)
    requires Valid(s)
    ensures Valid(Emit(s, line))
    ensures s.terminal.Some? ==> Emit(s, line) == s
    ensures s.terminal.None? ==>
              Emit(s, line).history
              == s.history + [Event(|s.history| + 1, Log, Text(Clip(line, s.bounds.maxLineChars)))]
  {
    hide Numbered, Clip, LogLines, Tail, Publish;
    if s.terminal.None? {
      var text := Clip(line, s.bounds.maxLineChars);
      PublishBounds(s.(lines := Tail(s.lines + [text], s.bounds.maxLines)), Log, Text(text));
      NumberedAppend(s.history, Log, Text(text));
      TailOfAppend(LogLines(s.history), [text], s.bounds.maxLines);
    }
  }

  /** What readers are told at the end: the code, the counts of a batch that was saved, or that saving failed. */
  predicate TellsOutcome(e: Event, rc: int, recording: Recording) {
    && e.kind == End && e.data.Outcome? && e.data.rc == rc
    && (e.data.batch.Some? <==> recording.Recorded?)
    && (recording.Recorded? ==> e.data.batch.value.passed == recording.counts.passed)
    && (recording.Recorded? ==> e.data.batch.value.failed == recording.counts.failed)
    && (recording.Recorded? ==> e.data.batch.value.total == recording.counts.total)
    && (e.data.historyError <==> recording.Unsaved?)
  }

  /** The first finish appends the one end event, which tells the outcome; a later one changes nothing. */
  lemma {:induction false} FinishKeepsValid<Q>(s: RunState<Q>, rc: int, recording: Recording)
    requires Valid(s)
    ensures Valid(Finish(s, rc, recording))
    ensures s.terminal.Some? ==> Finish(s, rc, recording) == s
    ensures s.terminal.None? ==>
              var s' := Finish(s, rc, recording);
              && s'.terminal.Some? && s'.history == s.history + [s'.terminal.value]
              && s'.terminal.value.id == |s.history| + 1 && TellsOutcome(s'.terminal.value, rc, recording)
  {
    hide Numbered, LogLines, Tail, Publish;
    if s.terminal.None? {
      var s' := Finish(s, rc, recording);
      PublishBounds(s, End, s'.terminal.value.data);
      NumberedAppend(s.history, End, s'.terminal.value.data);
      assert LogLines(s.history) + [] == LogLines(s.history);
    }
  }

  lemma {:induction false} SubscribeKeepsValid<Q>(s: RunState<Q>, q: Q)
    requires Valid(s) && !Refuses(s) && q !in s.queues
    ensures Valid(Subscribe(s, q))
    ensures var s' := Subscribe(s, q);
            && s'.queues.Keys == s.queues.Keys + {q} && s'.queues[q] == [] && q !in s.subscribers
            && (forall p | p in s.queues :: s'.queues[p] == s.queues[p])
            && (q in s'.subscribers <==> s.terminal.None?) && s'.subscribers - {q} == s.subscribers
            && s'.history == s.history && s'.terminal == s.terminal
  {
    hide Numbered, LogLines, Tail;
  }

  lemma {:induction false} UnsubscribeKeepsValid<Q>(s: RunState<Q>, q: Q)
    requires Valid(s)
    ensures Valid(Unsubscribe(s, q))
  {
  }

  // ------------------------------------------------------------------ what a subscriber is sent

  /** Filtering the ring by id is a suffix of the history. */
  lemma {:induction false} EventsAfterIsSuffix(h: seq<Event>, from: nat, lastId: nat)
    requires from <= |h| && forall i | 0 <= i < |h| :: h[i].id == i + 1
    ensures EventsAfter(h[from..], lastId) ==
            if lastId >= |h| then [] else if lastId <= from then h[from..] else h[lastId..]
    decreases |h| - from
  {
    if from < |h| {
      EventsAfterIsSuffix(h, from + 1, lastId);
      assert h[from..][1..] == h[from + 1..];
      assert h[from..][0] == h[from];
    }
  }

  /**
    * The backlog, exactly: everything after `lastId` when the ring still has it, the reset
    * notice and the whole ring when it does not (or when `lastId` was never issued), and at
    * least the terminal event of a finished run.
    */
  lemma {:induction false} BacklogIs<Q>(s: RunState<Q>, lastId: nat)
    requires Valid(s)
    ensures var first := |s.history| - |s.events|;
            Backlog(s, lastId) ==
            if s.history != [] && (lastId < first || lastId > |s.history|) then [RESET] + s.history[first..]
            else if lastId < |s.history| then s.history[lastId..]
            else if s.terminal.Some? then [s.terminal.value]
            else []
  {
    hide Tail, EventsAfter, LogLines, Numbered, Valid;
    var h := s.history;
    var first := |h| - |s.events|;
    RingFacts(s);
    EventsAfterIsSuffix(h, first, lastId);
    if h != [] && s.terminal.Some? {
      LastIsMember(h, first);
      LastIsMember([RESET] + h[first..], 0);
      if lastId < |h| {
        LastIsMember(h, lastId);
      }
    }
  }

  /** What the ring, the numbering and the terminal event have to do with each other. */
  lemma {:induction false} RingFacts<Q>(s: RunState<Q>)
    requires Valid(s)
    ensures var h := s.history;
            var first := |h| - |s.events|;
            && 0 <= first && s.events == h[first..] && s.sequence == |h|
            && (h != [] ==> s.events != [] && s.events[0].id == first + 1)
            && (forall i | 0 <= i < |h| :: h[i].id == i + 1)
            && (s.terminal.Some? ==> h != [] && s.terminal.value == h[|h| - 1])
  {
    hide Tail, LogLines;
    assert |s.events| <= |s.history| && s.events == s.history[|s.history| - |s.events|..] by { RingIsTail(s); }
    assert s.history != [] ==> s.events != [] by { RingIsTail(s); }
  }

  lemma {:induction false} RingIsTail<Q>(s: RunState<Q>)
    requires Valid(s)
    ensures |s.events| <= |s.history| && s.events == s.history[|s.history| - |s.events|..]
    ensures s.history != [] ==> s.events != []
  {
  }

  lemma {:induction false} LastIsMember<T>(s: seq<T>, from: nat)
    requires from < |s|
    ensures s[|s| - 1] in s[from..]
  {
  }

  /** Whatever id a client claims to have seen, a finished run sends its terminal event, once and last. */
  lemma {:induction false} BacklogEndsInTerminal<Q>(s: RunState<Q>, lastId: nat)
    requires Valid(s) && s.terminal.Some?
    ensures var b := Backlog(s, lastId);
            && b != [] && b[|b| - 1] == s.terminal.value
            && forall i | 0 <= i < |b| - 1 :: b[i].kind != End
  {
    hide Backlog, Tail, EventsAfter, LogLines;
    BacklogIs(s, lastId);
    var h, b := s.history, Backlog(s, lastId);
    forall i | 0 <= i < |h| - 1 ensures h[i].kind != End {
      assert NumberedAt(h[i], i, |h|, s.terminal);
    }
  }
}
