/** The dashboard's run object, its queues and the batch history, updated in place. */
module DashboardRun {
  import opened Common
  import opened Summary
  import opened Batch
  import opened RunLog

  /** A bounded queue with non-blocking operations. */
  class EventQueue {
    const maxsize: nat
    var items: seq<Item>

    constructor (maxsize: nat)
      ensures this.maxsize == maxsize && items == []
    {
      this.maxsize := maxsize;
      items := [];
    }

    method PutNowait(x: Item) returns (ok: bool)
      modifies this
      ensures ok == (|old(items)| < maxsize)
      ensures items == if ok then old(items) + [x] else old(items)
    {
      ok := |items| < maxsize;
      if ok {
        items := items + [x];
      }
    }

    method GetNowait() returns (x: Option<Item>)
      modifies this
      ensures old(items) == [] ==> x == None && items == []
      ensures old(items) != [] ==> x == Some(old(items)[0]) && items == old(items)[1..]
    {
      if items == [] {
        x := None;
      } else {
        x := Some(items[0]);
        items := items[1..];
      }
    }

    /** Empty the queue one item at a time and leave the marker. */
    method Evict()
      requires maxsize > 0
      modifies this
      ensures items == [Marker]
    {
      var x := GetNowait();
      while x.Some?
        invariant x.None? ==> items == []
        decreases |items|, if x.Some? then 1 else 0
      {
        x := GetNowait();
      }
      var ok := PutNowait(Marker);
    }
  }

  /** A recorded run of the whole suite. */
  datatype Entry = Entry(
    id: string, started: real, ended: real, elapsed: real, rc: int, summaryAvailable: bool, succeeded: bool,
    counts: Counts, results: seq<Row>)

  predicate RowOk(r: Row) {
    r.ok
  }

  function Tally(results: seq<Row>): (c: Counts)
    ensures c.passed + c.failed == c.total == |results|
  {
    var passed := |Filter(results, RowOk)|;
    Counts(passed, |results| - passed, |results|)
  }

  /** The positions of the rows that are ok, or of those that are not. */
  function Positions(results: seq<Row>, ok: bool): set<nat> {
    set i: nat | i < |results| && results[i].ok == ok
  }

  lemma {:induction false} PositionsStep(front: seq<Row>, last: Row, ok: bool)
    ensures |Positions(front + [last], ok)| == |Positions(front, ok)| + if last.ok == ok then 1 else 0
  {
    var all, n := front + [last], |front|;
    assert forall i | 0 <= i < n :: all[i] == front[i];
    assert all[n] == last;
    var before := Positions(front, ok);
    forall i: nat ensures i in Positions(all, ok) <==> i in before || (i == n && last.ok == ok) {
    }
    assert Positions(all, ok) == if last.ok == ok then before + {n} else before;
  }

  /** The counts are the numbers of rows that are ok, that are not, and of all. */
  lemma {:induction false} TallyCounts(results: seq<Row>)
    ensures Tally(results).passed == |Positions(results, true)| && Tally(results).failed == |Positions(results, false)|
    ensures Tally(results).total == |results|
  {
    if results != [] {
      hide Positions;
      var n := |results| - 1;
      var front, last := results[..n], results[n];
      TallyCounts(front);
      assert results == front + [last];
      PositionsStep(front, last, true);
      PositionsStep(front, last, false);
      FilterAppend(front, [last], RowOk);
      FilterStep(last, [], RowOk);
      assert [last] + [] == [last];
    } else {
      assert Positions(results, true) == {} && Positions(results, false) == {};
    }
  }

  /** What the end event of a run says: a batch is told only of the whole suite, with the counts of its rows. */
  predicate Reports(e: Event, suite: bool, saved: bool, rc: int, lines: seq<string>) {
    && e.kind == End && e.data.Outcome? && e.data.rc == rc
    && (e.data.batch.Some? <==> suite && saved) && (e.data.historyError <==> suite && !saved)
    && (suite && saved ==>
          var rows, c := ParseFrom(lines, false), e.data.batch.value;
          c.passed == |Positions(rows, true)| && c.failed == |Positions(rows, false)|
          && c.total == |rows| == c.passed + c.failed)
  }

  /** What is recorded of a batch: the times, the code and the rows as they are, and what follows from them. */
  predicate Records(e: Entry, id: string, started: real, ended: real, rc: int, lines: seq<string>) {
    && e.id == id && e.started == started && e.ended == ended && e.started + e.elapsed == e.ended
    && e.rc == rc && (e.succeeded <==> e.rc == 0)
    && e.results == ParseFrom(lines, false) && (e.summaryAvailable <==> |e.results| > 0)
    && e.counts.passed == |Positions(e.results, true)| && e.counts.failed == |Positions(e.results, false)|
    && e.counts.total == |e.results|
  }

  lemma {:induction false} EntryRecords(id: string, started: real, ended: real, rc: int, lines: seq<string>)
    ensures Records(EntryOf(id, started, ended, rc, lines), id, started, ended, rc, lines)
  {
    hide ParseFrom, Tally;
    TallyCounts(ParseFrom(lines, false));
  }

  function EntryOf(id: string, started: real, ended: real, rc: int, lines: seq<string>): Entry {
    var results := ParseFrom(lines, false);
    Entry(id, started, ended, ended - started, rc, results != [], rc == 0, Tally(results), results)
  }

  /** The bounded list of recorded batches, with everything that was ever recorded. */
  class BatchHistory {
    const max: nat
    var entries: seq<Entry>
    ghost var recorded: seq<Entry>

    ghost predicate Valid()
      reads this
    {
      entries == Tail(recorded, max)
    }

    constructor (max: nat)
      ensures Valid() && this.max == max && recorded == []
    {
      this.max := max;
      entries, recorded := [], [];
    }

    /** Drops the oldest entries beyond the limit. */
    method PopOldest()
      modifies this`entries
      ensures entries == Tail(old(entries), max)
    {
      ghost var all := entries;
      while |entries| > max
        invariant |entries| <= |all| && entries == all[|all| - |entries|..]
        invariant |all| <= max ==> entries == all
        invariant |all| > max ==> |entries| >= max
      {
        entries := entries[1..];
      }
    }

    method Append(e: Entry)
      requires Valid()
      modifies this
      ensures Valid() && recorded == old(recorded) + [e]
    {
      hide Tail;
      TailOfAppend(recorded, [e], max);
      entries, recorded := entries + [e], recorded + [e];
      PopOldest();
    }
  }

  lemma {:induction false} ValidParts<Q>(s: RunState<Q>)
    requires Valid(s)
    ensures s.subscribers <= s.queues.Keys && s.bounds.queueSize > 0
  {
  }

  class Run {
    const id: string
    const workload: string
    const bounds: Bounds
    const started: real
    var ended: Option<real>
    var sequence: nat
    var events: seq<Event>
    var lines: seq<string>
    var terminal: Option<Event>
    var subscribers: set<EventQueue>
    var returncode: Option<int>
    ghost var history: seq<Event>
    ghost var issued: set<EventQueue>

    /** The state of the run as the log's specification sees it. */
    ghost function View(): RunState<EventQueue>
      reads this, issued
    {
      RunState(bounds, history, sequence, events, lines, terminal, subscribers, map q | q in issued :: q.items)
    }

    ghost predicate Ok()
      reads this, issued
    {
      && (forall q | q in issued :: q.maxsize == bounds.queueSize)
      && Valid(View())
      && (returncode.Some? <==> terminal.Some?)
      && (ended.Some? <==> terminal.Some?)
    }

    constructor (id: string, workload: string, bounds: Bounds, started: real)
      requires bounds.maxLines > 0 && bounds.queueSize > 0
      ensures Ok() && issued == {} && View() == NewRun(bounds)
      ensures this.id == id && this.workload == workload && this.started == started
    {
      this.id, this.workload, this.bounds, this.started := id, workload, bounds, started;
      sequence, events, lines, terminal, subscribers, returncode, ended := 0, [], [], None, {}, None, None;
      history, issued := [], {};
    }

    /** Offers an event to every subscriber; one whose queue is full is dropped and its queue evicted. */
    method OfferAll(event: Event)
      requires subscribers <= issued && bounds.queueSize > 0
      requires forall q | q in issued :: q.maxsize == bounds.queueSize
      modifies this`subscribers, subscribers
      ensures forall q | q in issued ::
                q.items == if q in old(subscribers) then Offer(old(q.items), event, bounds.queueSize) else old(q.items)
      ensures subscribers == set q | q in old(subscribers) && |old(q.items)| < bounds.queueSize
    {
      ghost var all := subscribers;
      var todo := subscribers;
      while todo != {}
        invariant todo <= all <= issued
        invariant forall q | q in issued ::
                    q.items == if q in all - todo then Offer(old(q.items), event, bounds.queueSize) else old(q.items)
        invariant subscribers == set q | q in all && (q in todo || |old(q.items)| < bounds.queueSize)
        decreases todo
      {
        var q :| q in todo;
        var ok := q.PutNowait(Deliver(event));
        if !ok {
          subscribers := subscribers - {q};
          q.Evict();
        }
        todo := todo - {q};
      }
    }

    /** Appends one event to the ring and passes it on. */
    method PublishEvent(kind: Kind, data: Data) returns (event: Event)
      requires subscribers <= issued && bounds.queueSize > 0
      requires forall q | q in issued :: q.maxsize == bounds.queueSize
      modifies this`sequence, this`events, this`history, this`subscribers, subscribers
      ensures event == Event(old(sequence) + 1, kind, data)
      ensures View() == Publish(old(View()), kind, data)
    {
      hide Tail, Offer;
      ghost var before := View();
      sequence := sequence + 1;
      event := Event(sequence, kind, data);
      events := Tail(events + [event], bounds.maxLines);
      history := history + [event];
      OfferAll(event);
      ghost var after := Publish(before, kind, data);
      assert View().queues == after.queues;
      assert View().subscribers == after.subscribers;
    }

    /** Keeps one line and publishes it. */
    method PublishLine(text: string)
      requires subscribers <= issued && bounds.queueSize > 0
      requires forall q | q in issued :: q.maxsize == bounds.queueSize
      modifies this`sequence, this`events, this`history, this`subscribers, this`lines, subscribers
      ensures View() == Publish(old(View()).(lines := Tail(old(lines) + [text], bounds.maxLines)), Log, Text(text))
    {
      hide Publish, Tail;
      ghost var before := View();
      lines := Tail(lines + [text], bounds.maxLines);
      assert View() == before.(lines := lines);
      var _ := PublishEvent(Log, Text(text));
    }

    method EmitLine(line: string)
      requires Ok()
      modifies this`sequence, this`events, this`history, this`subscribers, this`lines, subscribers
      ensures Ok() && View() == Emit(old(View()), line)
    {
      hide Valid, Publish, Tail, Clip;
      EmitKeepsValid(View(), line);
      ValidParts(View());
      if terminal != None {
        return;
      }
      PublishLine(Clip(line, bounds.maxLineChars));
    }

    /** Records the batch of a whole-suite run, whether or not the history file could be written. */
    method RecordBatch(book: BatchHistory, saved: bool) returns (recording: Recording)
      requires returncode.Some? && ended.Some? && book.Valid()
      modifies book
      ensures book.Valid()
      ensures |book.recorded| == |old(book.recorded)| + 1 && old(book.recorded) <= book.recorded
      ensures Records(book.recorded[|old(book.recorded)|], id, started, ended.value, returncode.value, lines)
      ensures book.recorded == old(book.recorded) + [EntryOf(id, started, ended.value, returncode.value, lines)]
      ensures recording == if saved then Recorded(Tally(ParseFrom(lines, false))) else Unsaved
    {
      hide ParseFrom, Tally, Tail, Records;
      EntryRecords(id, started, ended.value, returncode.value, lines);
      var results := ParseBatchFromLines(lines);
      var entry := Entry(id, started, ended.value, ended.value - started, returncode.value, results != [],
                         returncode.value == 0, Tally(results), results);
      book.Append(entry);
      recording := if saved then Recorded(entry.counts) else Unsaved;
    }

    /** The recording of a finish in the present state. */
    ghost function RecordingOf(saved: bool): Recording
      reads this
    {
      if workload != "all" then NotABatch
      else if saved then Recorded(Tally(ParseFrom(lines, false))) else Unsaved
    }

    method FinishRun(rc: int, now: real, book: BatchHistory, saved: bool)
      requires Ok() && book.Valid()
      modifies this`sequence, this`events, this`history, this`subscribers, this`terminal, this`returncode, this`ended,
               subscribers, book
      ensures Ok() && View() == Finish(old(View()), rc, old(RecordingOf(saved)))
      ensures old(terminal).None? ==>
                terminal.Some? && Reports(terminal.value, workload == "all", saved, rc, old(lines))
      ensures returncode == if old(terminal).Some? then old(returncode) else Some(rc)
      ensures ended == if old(terminal).Some? then old(ended) else Some(now)
      ensures book.Valid()
      ensures book.recorded == old(book.recorded)
                               + if old(terminal).None? && workload == "all"
                                 then [EntryOf(id, started, now, rc, old(lines))] else []
    {
      hide Valid, Publish, Tail, ParseFrom, Tally, EntryOf, Records, Finish, Positions;
      FinishKeepsValid(View(), rc, RecordingOf(saved));
      TallyCounts(ParseFrom(lines, false));
      ValidParts(View());
      if terminal != None {
        return;
      }
      ghost var before := View();
      returncode, ended := Some(rc), Some(now);
      var recording := NotABatch;
      if workload == "all" {
        recording := RecordBatch(book, saved);
      }
      assert View() == before;
      PublishEnd(rc, recording);
    }

    /** Publishes the terminal event of a run whose code and end are set. */
    method PublishEnd(rc: int, recording: Recording)
      requires (forall q | q in issued :: q.maxsize == bounds.queueSize) && bounds.queueSize > 0
      requires subscribers <= issued && terminal.None?
      modifies this`sequence, this`events, this`history, this`subscribers, this`terminal, subscribers
      ensures View() == Finish(old(View()), rc, recording) && terminal.Some?
    {
      hide Publish;
      var batch := if recording.Recorded? then Some(recording.counts) else None;
      var event := PublishEvent(End, Outcome(rc, batch, recording.Unsaved?));
      ghost var published := View();
      terminal := Some(event);
      assert View() == published.(terminal := terminal);
    }

    /** What a subscriber that has seen `lastId` is sent at once. */
    method Replay(lastId: nat) returns (backlog: seq<Event>)
      ensures backlog == Backlog(View(), lastId)
    {
      hide EventsAfter;
      backlog := EventsAfter(events, lastId);
      if events != [] && (lastId < events[0].id - 1 || lastId > sequence) {
        backlog := [RESET] + events;
      }
      if terminal != None && terminal.value !in backlog {
        backlog := backlog + [terminal.value];
      }
    }

    /** Hands out a new, empty queue. */
    method IssueQueue() returns (q: EventQueue)
      modifies this`issued
      ensures fresh(q) && q !in old(issued) && q.items == [] && q.maxsize == bounds.queueSize
      ensures issued == old(issued) + {q}
      ensures View() == old(View()).(queues := old(View()).queues[q := []])
    {
      ghost var before := View();
      q := new EventQueue(bounds.queueSize);
      issued := issued + {q};
      assert View().queues == before.queues[q := []];
    }

    /** Registers the queue just handed out, unless the run is over. */
    method Enlist(q: EventQueue, ghost before: RunState<EventQueue>)
      requires Valid(before) && !Refuses(before) && q !in before.queues
      requires View() == before.(queues := before.queues[q := []])
      requires forall x | x in issued :: x.maxsize == bounds.queueSize
      requires (returncode.Some? <==> terminal.Some?) && (ended.Some? <==> terminal.Some?)
      modifies this`subscribers
      ensures Ok() && View() == Subscribe(before, q)
    {
      hide Valid;
      assert Valid(Subscribe(before, q)) by {
        SubscribeKeepsValid(before, q);
      }
      if terminal == None {
        subscribers := subscribers + {q};
      }
      assert View().queues == before.queues[q := []];
    }

    /** A new subscriber gets its queue, what it missed, and whether the run is over; none beyond the limit. */
    method SubscribeFrom(lastId: nat) returns (r: Option<(EventQueue, seq<Event>, bool)>)
      requires Ok()
      modifies this`subscribers, this`issued
      ensures Ok() && (r.None? <==> Refuses(old(View())))
      ensures r.None? ==> View() == old(View())
      ensures r.Some? ==>
                && fresh(r.value.0) && r.value.1 == Backlog(old(View()), lastId) && r.value.2 == terminal.Some?
                && View() == Subscribe(old(View()), r.value.0)
    {
      hide Valid, Backlog, Subscribe;
      if |subscribers| >= bounds.maxSubscribers {
        return None;
      }
      ghost var before := View();
      var backlog := Replay(lastId);
      var done := terminal != None;
      var q := IssueQueue();
      Enlist(q, before);
      r := Some((q, backlog, done));
    }

    method UnsubscribeQueue(q: EventQueue)
      requires Ok()
      modifies this`subscribers
      ensures Ok() && View() == Unsubscribe(old(View()), q)
    {
      hide Valid;
      ghost var before := View();
      subscribers := subscribers - {q};
      assert View().queues == before.queues;
      UnsubscribeKeepsValid(before, q);
    }
  }
}
