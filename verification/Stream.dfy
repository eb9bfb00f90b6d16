/**
  * The run log and its readers as one state machine. Whatever the source does under the run's lock is
  * one step; a handler thread's dequeue, the network and the browser take steps of their own. The one
  * critical section that is not atomic for a reader is the eviction drain: the dequeues that fall into
  * it are given by a schedule per client.
  */
module Stream {
  import opened Common
  import opened RunLog

  /** A streaming connection: its queue, what was written but not received, and the id the rest follows on. */
  datatype Session = Session(q: nat, wire: seq<Item>, base: nat, closing: bool)

  /** A browser: last event id, events shown since the last reset, and its connection. */
  datatype Client = Client(last: nat, held: seq<Event>, ended: bool, resets: nat, session: Option<Session>)

  datatype System = System(run: RunState<nat>, nextQueue: nat, clients: map<nat, Client>)

  /** Who dequeues next while a full queue is drained. */
  datatype Turn = Reader | Drain

  datatype Step =
    | EmitLine(line: string, drains: map<nat, seq<Turn>>)
    | FinishRun(rc: int, recording: Recording, drains: map<nat, seq<Turn>>)
    | Connect(c: nat)
    | Take(c: nat)
    | Receive(c: nat)
    | Disconnect(c: nat)
    | Reap(q: nat)

  // ------------------------------------------------------------------ steps

  function Wrap(es: seq<Event>): seq<Item> {
    if es == [] then [] else [Deliver(es[0])] + Wrap(es[1..])
  }

  /** What the reader gets of a queue that is drained under the given schedule. */
  function Grabbed(items: seq<Item>, turns: seq<Turn>): seq<Item> {
    if items == [] || turns == [] then []
    else (if turns[0] == Reader then [items[0]] else []) + Grabbed(items[1..], turns[1..])
  }

  function Turns(drains: map<nat, seq<Turn>>, c: nat): seq<Turn> {
    if c in drains then drains[c] else []
  }

  predicate Full(run: RunState<nat>, q: nat) {
    q in run.subscribers && q in run.queues && |run.queues[q]| >= run.bounds.queueSize
  }

  /** What a client's connection sees of a publication in state `run`. */
  function Overtaken(run: RunState<nat>, cl: Client, turns: seq<Turn>): Client {
    if cl.session.Some? && Full(run, cl.session.value.q) then
      var ss := cl.session.value;
      cl.(session := Some(ss.(wire := ss.wire + Grabbed(run.queues[ss.q], turns))))
    else cl
  }

  function Broadcast(s: System, run': RunState<nat>, drains: map<nat, seq<Turn>>): System {
    s.(run := run', clients := (map c | c in s.clients :: Overtaken(s.run, s.clients[c], Turns(drains, c))))
  }

  const NEW_CLIENT := Client(0, [], false, 0, None)

  function ClientOf(s: System, c: nat): Client {
    if c in s.clients then s.clients[c] else NEW_CLIENT
  }

  /** A connection attempt with the last id the client saw; refused beyond the subscriber limit. */
  function Join(s: System, c: nat): System {
    var cl := ClientOf(s, c);
    if cl.ended || cl.session.Some? || Refuses(s.run) || s.nextQueue in s.run.queues then s
    else
      var backlog := Backlog(s.run, cl.last);
      var base := if backlog != [] && backlog[0] == RESET then |s.run.history| - |s.run.events| else cl.last;
      var session := Session(s.nextQueue, Wrap(backlog), if base < 0 then 0 else base, false);
      System(Subscribe(s.run, s.nextQueue), s.nextQueue + 1, s.clients[c := cl.(session := Some(session))])
  }

  /** The handler dequeues one item: it writes an event, and returns after the terminal event or the marker. */
  function Dequeue(s: System, c: nat): System {
    if c !in s.clients || s.clients[c].session.None? then s else
    var cl := s.clients[c];
    var ss := cl.session.value;
    if ss.q !in s.run.queues || s.run.queues[ss.q] == [] then s else
    var x := s.run.queues[ss.q][0];
    var run := s.run.(queues := s.run.queues[ss.q := s.run.queues[ss.q][1..]]);
    if x.Marker? then
      s.(run := Unsubscribe(run, ss.q), clients := s.clients[c := cl.(session := Some(ss.(closing := true)))])
    else
      s.(run := if x.event.kind == End then Unsubscribe(run, ss.q) else run,
         clients := s.clients[c := cl.(session := Some(ss.(wire := ss.wire + [x])))])
  }

  /** The browser's event handlers for log, reset and end; an exhausted closed connection is given up. */
  function Hear(cl: Client): Client {
    if cl.session.None? then cl else
    var ss := cl.session.value;
    if ss.wire == [] then
      if ss.closing then cl.(session := None) else cl
    else if ss.wire[0].Marker? then cl
    else
      var e := ss.wire[0].event;
      var rest := ss.(wire := ss.wire[1..]);
      match e.kind
      case Reset => cl.(last := e.id, held := [], resets := cl.resets + 1, session := Some(rest))
      case Log => cl.(last := e.id, held := cl.held + [e], session := Some(rest.(base := e.id)))
      case End => cl.(last := e.id, held := cl.held + [e], ended := true, session := None)
  }

  function Apply(s: System, step: Step): System {
    match step
    case EmitLine(line, drains) =>
      if s.run.terminal.Some? || !(s.run.subscribers <= s.run.queues.Keys) then s
      else Broadcast(s, Emit(s.run, line), drains)
    case FinishRun(rc, recording, drains) =>
      if s.run.terminal.Some? || !(s.run.subscribers <= s.run.queues.Keys) then s
      else Broadcast(s, Finish(s.run, rc, recording), drains)
    case Connect(c) => Join(s, c)
    case Take(c) => Dequeue(s, c)
    case Receive(c) =>
      if c in s.clients then s.(clients := s.clients[c := Hear(s.clients[c])]) else s
    case Disconnect(c) =>
      if c in s.clients then s.(clients := s.clients[c := s.clients[c].(session := None)]) else s
    case Reap(q) =>
      if exists c :: c in s.clients && s.clients[c].session.Some? && s.clients[c].session.value.q == q then s
      else s.(run := Unsubscribe(s.run, q))
  }

  function Exec(s: System, steps: seq<Step>): System
    decreases steps
  {
    if steps == [] then s else Exec(Apply(s, steps[0]), steps[1..])
  }

  function Start(bounds: Bounds): System {
    System(NewRun(bounds), 0, map[])
  }

  // ------------------------------------------------------------------ schedules of the drain

  predicate NoReader(n: nat, turns: seq<Turn>) {
    forall i | 0 <= i < n && i < |turns| :: turns[i] == Drain
  }

  /** No dequeue of the reader falls behind one of the drain, among the first `n` turns. */
  predicate Clean(n: nat, turns: seq<Turn>) {
    n == 0 || turns == [] || if turns[0] == Reader then Clean(n - 1, turns[1..]) else NoReader(n, turns)
  }

  predicate CleanStep(size: nat, step: Step) {
    (step.EmitLine? || step.FinishRun?) ==> forall c | c in step.drains :: Clean(size, step.drains[c])
  }

  // ------------------------------------------------------------------ chains of events

  /** Events of `h` that follow on id `last`: the very next ones if `gapless`, later and later ones if not. */
  predicate Chain(gapless: bool, h: seq<Event>, last: nat, r: seq<Item>)
    decreases r
  {
    r == [] ||
    (r[0].Deliver? && InHistory(h, r[0].event) && last < r[0].event.id
     && (gapless ==> r[0].event.id == last + 1)
     && Chain(gapless, h, r[0].event.id, r[1..]))
  }

  predicate InHistory(h: seq<Event>, e: Event) {
    1 <= e.id <= |h| && h[e.id - 1] == e
  }

  /** The id a chain ends on. */
  function EndOf(last: nat, r: seq<Item>): nat {
    if r == [] then last else
    match r[|r| - 1] case Deliver(e) => e.id case Marker => last
  }

  lemma {:induction false} ChainEndInHistory(g: bool, h: seq<Event>, last: nat, r: seq<Item>)
    requires Chain(g, h, last, r) && r != []
    ensures r[|r| - 1].Deliver? && InHistory(h, r[|r| - 1].event) && last < EndOf(last, r)
    decreases r
  {
    if |r| > 1 {
      ChainEndInHistory(g, h, r[0].event.id, r[1..]);
    }
  }

  lemma {:induction false} ChainAppend(g: bool, h: seq<Event>, last: nat, a: seq<Item>, b: seq<Item>)
    ensures Chain(g, h, last, a + b) <==> Chain(g, h, last, a) && Chain(g, h, EndOf(last, a), b)
    ensures b != [] && b[|b| - 1].Deliver? ==> EndOf(last, a + b) == EndOf(EndOf(last, a), b)
    decreases a
  {
    assert b != [] ==> (a + b)[|a + b| - 1] == b[|b| - 1];
    if a == [] {
      assert a + b == b;
    } else {
      assert (a + b)[0] == a[0] && (a + b)[1..] == a[1..] + b;
      if Chain(g, h, last, a) {
        ChainEndInHistory(g, h, last, a);
      }
      if a[0].Deliver? {
        ChainAppend(g, h, a[0].event.id, a[1..], b);
        if Chain(g, h, a[0].event.id, a[1..]) && |a| > 1 {
          ChainEndInHistory(g, h, a[0].event.id, a[1..]);
        }
      }
    }
  }

  lemma {:induction false} ChainGrows(g: bool, h: seq<Event>, h': seq<Event>, last: nat, r: seq<Item>)
    requires h <= h' && Chain(g, h, last, r)
    ensures Chain(g, h', last, r)
    decreases r
  {
    if r != [] {
      ChainGrows(g, h, h', r[0].event.id, r[1..]);
    }
  }

  /** Nothing follows on the newest event. */
  lemma {:induction false} ChainAtEnd(g: bool, h: seq<Event>, r: seq<Item>)
    requires Chain(g, h, |h|, r)
    ensures r == []
  {
  }

  /** A gapless chain is a block of the history. */
  lemma {:induction false} ChainIsBlock(h: seq<Event>, last: nat, r: seq<Item>)
    requires last <= |h| && Chain(true, h, last, r)
    ensures EndOf(last, r) == last + |r| <= |h|
    ensures r == Wrap(h[last..last + |r|])
    decreases r
  {
    if r != [] {
      ChainIsBlock(h, last + 1, r[1..]);
      var block := h[last..last + |r|];
      assert block[1..] == h[last + 1..last + |r|];
    }
  }

  lemma {:induction false} BlockIsChain(h: seq<Event>, last: nat)
    requires last <= |h| && forall i | 0 <= i < |h| :: h[i].id == i + 1
    ensures Chain(true, h, last, Wrap(h[last..])) && EndOf(last, Wrap(h[last..])) == |h|
    decreases |h| - last
  {
    if last < |h| {
      assert h[last..][1..] == h[last + 1..];
      BlockIsChain(h, last + 1);
    }
  }

  lemma {:induction false} GaplessIsIncreasing(h: seq<Event>, last: nat, r: seq<Item>)
    requires Chain(true, h, last, r)
    ensures Chain(false, h, last, r)
    decreases r
  {
    if r != [] {
      GaplessIsIncreasing(h, r[0].event.id, r[1..]);
    }
  }

  lemma {:induction false} WrapAppend(a: seq<Event>, b: seq<Event>)
    ensures Wrap(a + b) == Wrap(a) + Wrap(b) && |Wrap(a)| == |a|
  {
    if a == [] {
      assert a + b == b;
    } else {
      assert (a + b)[1..] == a[1..] + b;
      WrapAppend(a[1..], b);
    }
  }

  // ------------------------------------------------------------------ what the drain leaves of a chain

  lemma {:induction false} ChainFromEarlier(h: seq<Event>, a: nat, b: nat, r: seq<Item>)
    requires a <= b && Chain(false, h, b, r)
    ensures Chain(false, h, a, r)
  {
  }

  lemma {:induction false} NoReaderNothing(items: seq<Item>, turns: seq<Turn>)
    requires NoReader(|items|, turns)
    ensures Grabbed(items, turns) == []
  {
    if items != [] && turns != [] {
      assert turns[0] == Drain;
      NoReaderNothing(items[1..], turns[1..]);
    }
  }

  /** Under any schedule the reader still gets increasing ids. */
  lemma {:induction false} GrabbedIncreases(h: seq<Event>, last: nat, items: seq<Item>, turns: seq<Turn>)
    requires Chain(false, h, last, items)
    ensures Chain(false, h, last, Grabbed(items, turns))
    decreases items
  {
    if items != [] && turns != [] {
      var e := items[0].event;
      GrabbedIncreases(h, e.id, items[1..], turns[1..]);
      if turns[0] == Reader {
        assert Grabbed(items, turns)[0] == items[0];
        assert Grabbed(items, turns)[1..] == Grabbed(items[1..], turns[1..]);
      } else {
        ChainFromEarlier(h, last, e.id, Grabbed(items[1..], turns[1..]));
        assert Grabbed(items, turns) == Grabbed(items[1..], turns[1..]);
      }
    }
  }

  /** A gapless queue stays gapless through the drain exactly when the schedule is clean. */
  lemma {:induction false} GrabbedGaplessIff(h: seq<Event>, last: nat, items: seq<Item>, turns: seq<Turn>)
    requires Chain(true, h, last, items)
    ensures Chain(true, h, last, Grabbed(items, turns)) <==> Clean(|items|, turns)
    decreases items
  {
    if items != [] && turns != [] {
      var e := items[0].event;
      if turns[0] == Reader {
        GrabbedGaplessIff(h, e.id, items[1..], turns[1..]);
        assert Grabbed(items, turns)[1..] == Grabbed(items[1..], turns[1..]);
      } else if NoReader(|items|, turns) {
        NoReaderNothing(items, turns);
      } else {
        GrabbedAfterDrain(h, e.id, items[1..], turns[1..]);
      }
    }
  }

  /** What the reader gets behind a drained event starts later than that event. */
  lemma {:induction false} GrabbedAfterDrain(h: seq<Event>, last: nat, items: seq<Item>, turns: seq<Turn>)
    requires Chain(true, h, last, items) && !NoReader(|items|, turns)
    ensures var r := Grabbed(items, turns); r != [] && r[0].Deliver? && r[0].event.id > last
    decreases items
  {
    if turns[0] == Drain {
      var i :| 0 <= i < |items| && i < |turns| && turns[i] != Drain;
      assert turns[1..][i - 1] == turns[i];
      GrabbedAfterDrain(h, items[0].event.id, items[1..], turns[1..]);
    }
  }

  // ------------------------------------------------------------------ the invariant

  /** The written but unreceived events, without a reset notice in front. */
  function Body(wire: seq<Item>): seq<Item> {
    if wire != [] && wire[0] == Deliver(RESET) then wire[1..] else wire
  }

  /** What the browser shows ends on `last` and is a chain; the terminal event ends the connection. */
  predicate ViewOk(g: bool, h: seq<Event>, cl: Client) {
    && cl.last <= |h|
    && (if cl.held == [] then cl.last == 0
        else cl.held[0].id >= 1 && Chain(g, h, cl.held[0].id - 1, Wrap(cl.held))
             && cl.last == cl.held[|cl.held| - 1].id)
    && (cl.ended <==> cl.last > 0 && h[cl.last - 1].kind == End)
    && (cl.ended ==> cl.session.None?)
  }

  /** The session goes on where the view ends, or starts over behind a reset. */
  predicate Continues(cl: Client, ss: Session) {
    || ss.base == cl.last
    || (cl.held == [] && cl.resets > 0 && ss.wire != [])
    || (ss.wire != [] && ss.wire[0] == Deliver(RESET))
  }

  /** A subscribed queue: wire and queue together reach the newest event. */
  predicate Live(g: bool, run: RunState<nat>, ss: Session, items: seq<Item>) {
    && ss.q in run.subscribers && !ss.closing
    && Chain(g, run.history, ss.base, Body(ss.wire) + items)
    && EndOf(ss.base, Body(ss.wire) + items) == |run.history|
  }

  /** An evicted queue: its marker is still queued or has been read. */
  predicate Evicted(g: bool, run: RunState<nat>, ss: Session, items: seq<Item>) {
    && ss.q !in run.subscribers
    && items == (if ss.closing then [] else [Marker])
    && Chain(g, run.history, ss.base, Body(ss.wire))
  }

  /** The terminal event is on the wire. */
  predicate Ending(g: bool, run: RunState<nat>, ss: Session, items: seq<Item>) {
    && ss.q !in run.subscribers && !ss.closing && items == []
    && run.terminal.Some? && Body(ss.wire) != []
    && Chain(g, run.history, ss.base, Body(ss.wire))
    && EndOf(ss.base, Body(ss.wire)) == |run.history|
  }

  predicate SessionOk(g: bool, run: RunState<nat>, cl: Client, ss: Session) {
    && ss.q in run.queues
    && Continues(cl, ss)
    && (ss.wire != [] && ss.wire[0] == Deliver(RESET) ==> Body(ss.wire) != [])
    && var items := run.queues[ss.q];
       Live(g, run, ss, items) || Evicted(g, run, ss, items) || Ending(g, run, ss, items)
  }

  predicate ClientOk(g: bool, run: RunState<nat>, cl: Client) {
    ViewOk(g, run.history, cl) && (cl.session.Some? ==> SessionOk(g, run, cl, cl.session.value))
  }

  predicate Separate(clients: map<nat, Client>) {
    forall c, d | c in clients && d in clients && c != d && clients[c].session.Some? && clients[d].session.Some? ::
      clients[c].session.value.q != clients[d].session.value.q
  }

  /** With `g`, views and streams have no gaps; without, ids still only increase. */
  predicate Inv(g: bool, s: System) {
    && Valid(s.run)
    && (forall q | q in s.run.queues :: q < s.nextQueue)
    && (forall c | c in s.clients :: ClientOk(g, s.run, s.clients[c]))
    && Separate(s.clients)
  }

  // ------------------------------------------------------------------ publication

  lemma {:induction false} ViewGrows(g: bool, h: seq<Event>, h': seq<Event>, cl: Client)
    requires h <= h' && ViewOk(g, h, cl)
    ensures ViewOk(g, h', cl)
  {
    if cl.held != [] {
      ChainGrows(g, h, h', cl.held[0].id - 1, Wrap(cl.held));
    }
  }

  predicate Published(run: RunState<nat>, run': RunState<nat>, e: Event) {
    && run'.bounds == run.bounds
    && e.id == |run.history| + 1 && run'.history == run.history + [e]
    && run.subscribers <= run.queues.Keys == run'.queues.Keys
    && (forall q | q in run.queues ::
          run'.queues[q]
          == if q in run.subscribers then Offer(run.queues[q], e, run.bounds.queueSize) else run.queues[q])
    && (forall q | q in run.queues ::
          q in run'.subscribers <==> q in run.subscribers && |run.queues[q]| < run.bounds.queueSize)
    && run.terminal.None?
  }

  lemma {:induction false} ChainTakesNext(g: bool, h: seq<Event>, e: Event, base: nat, r: seq<Item>)
    requires Chain(g, h, base, r) && EndOf(base, r) == |h| && e.id == |h| + 1
    ensures Chain(g, h + [e], base, r + [Deliver(e)]) && EndOf(base, r + [Deliver(e)]) == |h| + 1
  {
    ChainGrows(g, h, h + [e], base, r);
    ChainAppend(g, h + [e], base, r, [Deliver(e)]);
    assert Chain(g, h + [e], e.id, []);
    assert [Deliver(e)][1..] == [];
  }

  lemma {:induction false} BodyAppend(wire: seq<Item>, more: seq<Item>)
    requires wire != [] || more == [] || more[0] != Deliver(RESET)
    ensures Body(wire + more) == Body(wire) + more
  {
  }

  lemma {:induction false} GrabbedChain(g: bool, h: seq<Event>, last: nat, items: seq<Item>, turns: seq<Turn>)
    requires Chain(g, h, last, items) && (g ==> Clean(|items|, turns))
    ensures Chain(g, h, last, Grabbed(items, turns))
  {
    if g {
      GrabbedGaplessIff(h, last, items, turns);
    } else {
      GrabbedIncreases(h, last, items, turns);
    }
  }

  lemma {:induction false} NotAReset(g: bool, h: seq<Event>, last: nat, r: seq<Item>)
    requires Chain(g, h, last, r) && r != []
    ensures r[0] != Deliver(RESET)
  {
  }

  lemma {:induction false} LiveExtended(g: bool, run: RunState<nat>, run': RunState<nat>, e: Event, ss: Session)
    requires Published(run, run', e) && ss.q in run.queues && Live(g, run, ss, run.queues[ss.q])
    requires |run.queues[ss.q]| < run.bounds.queueSize
    ensures Live(g, run', ss, run'.queues[ss.q])
  {
    var body, items := Body(ss.wire), run.queues[ss.q];
    ChainTakesNext(g, run.history, e, ss.base, body + items);
    assert body + (items + [Deliver(e)]) == (body + items) + [Deliver(e)];
  }

  /** Eviction leaves the marker, and on the wire whatever the reader got hold of before. */
  lemma {:induction false} LiveEvicted(
      g: bool, run: RunState<nat>, run': RunState<nat>, e: Event, ss: Session, turns: seq<Turn>)
    requires Published(run, run', e) && ss.q in run.queues && Live(g, run, ss, run.queues[ss.q])
    requires |run.queues[ss.q]| >= run.bounds.queueSize
    requires g ==> Clean(|run.queues[ss.q]|, turns)
    ensures var ss' := ss.(wire := ss.wire + Grabbed(run.queues[ss.q], turns));
            && Evicted(g, run', ss', run'.queues[ss.q])
            && Body(ss'.wire) == Body(ss.wire) + Grabbed(run.queues[ss.q], turns)
  {
    hide Clean, Grabbed;
    var h, body, items := run.history, Body(ss.wire), run.queues[ss.q];
    ChainAppend(g, h, ss.base, body, items);
    var last := EndOf(ss.base, body);
    var grabbed := Grabbed(items, turns);
    GrabbedChain(g, h, last, items, turns);
    ChainAppend(g, h, ss.base, body, grabbed);
    ChainGrows(g, h, run'.history, ss.base, body + grabbed);
    if grabbed != [] {
      NotAReset(g, h, last, grabbed);
    }
    BodyAppend(ss.wire, grabbed);
  }

  /** One client's view of a publication. */
  lemma {:induction false} OvertakenOk(
      g: bool, run: RunState<nat>, run': RunState<nat>, e: Event, cl: Client, turns: seq<Turn>)
    requires Published(run, run', e) && ClientOk(g, run, cl)
    requires Valid(run) && (g ==> Clean(run.bounds.queueSize, turns))
    ensures ClientOk(g, run', Overtaken(run, cl, turns))
  {
    hide Valid, ViewOk, Chain, Clean, EndOf, Grabbed;
    var h, h' := run.history, run'.history;
    ViewGrows(g, h, h', cl);
    var cl' := Overtaken(run, cl, turns);
    assert ViewOk(g, h', cl') by { ViewIgnoresSession(g, h', cl, cl'); }
    if cl.session.Some? {
      var ss := cl.session.value;
      var items := run.queues[ss.q];
      if Live(g, run, ss, items) && |items| < run.bounds.queueSize {
        LiveExtended(g, run, run', e, ss);
      } else if Live(g, run, ss, items) {
        QueueBounded(run, ss.q);
        LiveEvicted(g, run, run', e, ss, turns);
      } else {
        ChainGrows(g, h, h', ss.base, Body(ss.wire));
      }
    }
  }

  lemma {:induction false} QueueBounded(run: RunState<nat>, q: nat)
    requires Valid(run) && q in run.queues
    ensures |run.queues[q]| <= run.bounds.queueSize
  {
  }

  lemma {:induction false} ViewIgnoresSession(g: bool, h: seq<Event>, cl: Client, cl': Client)
    requires ViewOk(g, h, cl) && cl' == cl.(session := cl'.session)
    requires cl'.session.Some? ==> cl.session.Some?
    ensures ViewOk(g, h, cl')
  {
  }

  lemma {:induction false} BroadcastOk(g: bool, s: System, run': RunState<nat>, e: Event, drains: map<nat, seq<Turn>>)
    requires Inv(g, s) && Published(s.run, run', e) && Valid(run')
    requires g ==> forall c | c in drains :: Clean(s.run.bounds.queueSize, drains[c])
    ensures Inv(g, Broadcast(s, run', drains))
  {
    hide Valid, ClientOk, Overtaken, Clean;
    var s' := Broadcast(s, run', drains);
    forall c | c in s'.clients ensures ClientOk(g, run', s'.clients[c]) {
      EmptyScheduleIsClean(s.run.bounds.queueSize);
      OvertakenOk(g, s.run, run', e, s.clients[c], Turns(drains, c));
    }
    forall c | c in s.clients ensures SameQueue(s.clients[c], s'.clients[c]) {
      OvertakenSameQueue(s.run, s.clients[c], Turns(drains, c));
    }
  }

  predicate SameQueue(cl: Client, cl': Client) {
    cl'.session.Some? ==> cl.session.Some? && cl.session.value.q == cl'.session.value.q
  }

  lemma {:induction false} OvertakenSameQueue(run: RunState<nat>, cl: Client, turns: seq<Turn>)
    ensures SameQueue(cl, Overtaken(run, cl, turns))
  {
  }

  lemma {:induction false} EmptyScheduleIsClean(n: nat)
    ensures Clean(n, [])
  {
  }

  lemma {:induction false} EmitPublishes(run: RunState<nat>, line: string)
    requires Valid(run) && run.terminal.None?
    ensures var run' := Emit(run, line); run'.history != [] && Published(run, run', run'.history[|run'.history| - 1])
  {
  }

  lemma {:induction false} FinishPublishes(run: RunState<nat>, rc: int, recording: Recording)
    requires Valid(run) && run.terminal.None?
    ensures var run' := Finish(run, rc, recording);
            run'.history != [] && Published(run, run', run'.history[|run'.history| - 1])
  {
  }

  // ------------------------------------------------------------------ the other steps

  /** A client is untouched by what happens to other queues. */
  lemma {:induction false} ClientFrame(g: bool, run: RunState<nat>, run': RunState<nat>, cl: Client)
    requires ClientOk(g, run, cl)
    requires run'.history == run.history && run'.terminal == run.terminal
    requires cl.session.Some? ==>
               var q := cl.session.value.q;
               q in run'.queues && run'.queues[q] == run.queues[q] && (q in run'.subscribers <==> q in run.subscribers)
    ensures ClientOk(g, run', cl)
  {
  }

  /** Replacing one client, when the run only changed for that client's queue `q`. */
  lemma {:induction false} ReplaceClient(
      g: bool, s: System, run': RunState<nat>, nextQueue: nat, c: nat, cl': Client, q: nat)
    requires Inv(g, s) && Valid(run') && ClientOk(g, run', cl')
    requires run'.history == s.run.history && run'.terminal == s.run.terminal
    requires s.nextQueue <= nextQueue && forall k | k in run'.queues :: k < nextQueue
    requires forall k | k in s.run.queues && k != q ::
               k in run'.queues && run'.queues[k] == s.run.queues[k]
               && (k in run'.subscribers <==> k in s.run.subscribers)
    requires forall d | d in s.clients && d != c && s.clients[d].session.Some? :: s.clients[d].session.value.q != q
    requires cl'.session.Some? ==> cl'.session.value.q == q
    ensures Inv(g, System(run', nextQueue, s.clients[c := cl']))
  {
    hide Valid, Chain, EndOf, ViewOk;
    var s' := System(run', nextQueue, s.clients[c := cl']);
    forall d | d in s'.clients ensures ClientOk(g, run', s'.clients[d]) {
      if d != c {
        ClientFrame(g, s.run, run', s.clients[d]);
      }
    }
  }

  lemma {:induction false} NewClientOk(g: bool, run: RunState<nat>)
    ensures ClientOk(g, run, NEW_CLIENT)
  {
  }

  lemma {:induction false} WrapFacts(es: seq<Event>)
    ensures |Wrap(es)| == |es|
    ensures es != [] ==> Wrap(es)[0] == Deliver(es[0]) && Wrap(es)[1..] == Wrap(es[1..])
  {
    WrapAppend(es, []);
  }

  lemma {:induction false} ChainIncludesGapless(g: bool, h: seq<Event>, last: nat, r: seq<Item>)
    requires Chain(true, h, last, r)
    ensures Chain(g, h, last, r)
  {
    GaplessIsIncreasing(h, last, r);
  }

  lemma {:induction false} NumberedIds(h: seq<Event>, t: Option<Event>)
    requires Numbered(h, t)
    ensures forall i | 0 <= i < |h| :: h[i].id == i + 1
  {
  }

  /** A client that has not ended has not seen all of a finished run. */
  lemma {:induction false} FinishedLeavesSome(g: bool, run: RunState<nat>, cl: Client)
    requires Numbered(run.history, run.terminal) && run.terminal.Some?
    requires ViewOk(g, run.history, cl) && !cl.ended
    ensures cl.last < |run.history|
  {
  }

  predicate Reaches(h: seq<Event>, base: nat, wire: seq<Item>) {
    Chain(true, h, base, Body(wire)) && EndOf(base, Body(wire)) == |h|
  }

  lemma {:induction false} ResetStream(h: seq<Event>, first: nat)
    requires first < |h| && forall i | 0 <= i < |h| :: h[i].id == i + 1
    ensures var wire := Wrap([RESET] + h[first..]);
            Reaches(h, first, wire) && wire != [] && wire[0] == Deliver(RESET) && Body(wire) != []
  {
    var es := [RESET] + h[first..];
    assert es[1..] == h[first..];
    BlockIsChain(h, first);
    WrapFacts(es);
    WrapFacts(h[first..]);
  }

  lemma {:induction false} PlainStream(h: seq<Event>, last: nat)
    requires last <= |h| && forall i | 0 <= i < |h| :: h[i].id == i + 1
    ensures var wire := Wrap(h[last..]);
            Reaches(h, last, wire) && Body(wire) == wire && |wire| == |h| - last
    ensures h[last..] != [] ==> h[last..][0] != RESET && Wrap(h[last..])[0] != Deliver(RESET)
  {
    BlockIsChain(h, last);
    WrapFacts(h[last..]);
    assert h[last..] != [] ==> h[last..][0].id == last + 1;
  }

  /** What a connection is sent at first reaches the newest event without a gap. */
  lemma {:induction false} BacklogStream(run: RunState<nat>, cl: Client)
    requires Valid(run) && cl.last <= |run.history| && (run.terminal.Some? ==> cl.last < |run.history|)
    ensures var b := Backlog(run, cl.last);
            var reset := b != [] && b[0] == RESET;
            var base := if reset then |run.history| - |run.events| else cl.last;
            && 0 <= base && Reaches(run.history, base, Wrap(b))
            && (Wrap(b) != [] && Wrap(b)[0] == Deliver(RESET) <==> reset)
            && (reset ==> Body(Wrap(b)) != [])
            && (run.terminal.Some? ==> Body(Wrap(b)) != [])
  {
    hide LogLines, Backlog, Tail, Numbered, EventsAfter, Reaches, Body, Wrap;
    var h := run.history;
    var first := |h| - |run.events|;
    BacklogIs(run, cl.last);
    NumberedIds(h, run.terminal);
    RingIsTail(run);
    if h != [] && cl.last < first {
      ResetStream(h, first);
      assert ([RESET] + h[first..])[0] == RESET;
    } else {
      PlainStream(h, cl.last);
      assert h[|h|..] == [];
    }
  }

  /** The session a handler opens continues what its client shows. */
  lemma {:induction false} OpenedOk(g: bool, s: System, c: nat)
    requires Inv(g, s) && Join(s, c) != s
    ensures ClientOk(g, Join(s, c).run, Join(s, c).clients[c])
  {
    hide Numbered, LogLines, Tail, Chain, EndOf, Backlog, ViewOk, Wrap, Body, Separate;
    var cl := ClientOf(s, c);
    NewClientOk(g, s.run);
    var s' := Join(s, c);
    var cl' := s'.clients[c];
    var ss := cl'.session.value;
    if s.run.terminal.Some? {
      FinishedLeavesSome(g, s.run, cl);
    }
    ViewWithin(g, s.run.history, cl);
    BacklogStream(s.run, cl);
    ChainIncludesGapless(g, s.run.history, ss.base, Body(ss.wire));
    assert Body(ss.wire) + [] == Body(ss.wire);
    ViewConnects(g, s.run.history, cl, cl');
  }

  lemma {:induction false} JoinOk(g: bool, s: System, c: nat)
    requires Inv(g, s)
    ensures Inv(g, Join(s, c))
  {
    hide Valid, ClientOk, Backlog, Wrap;
    var s' := Join(s, c);
    if s' != s {
      OpenedOk(g, s, c);
      SubscribeKeepsValid(s.run, s.nextQueue);
      SessionsAreOlder(g, s);
      ReplaceClient(g, s, s'.run, s'.nextQueue, c, s'.clients[c], s.nextQueue);
    }
  }

  lemma {:induction false} SessionsAreOlder(g: bool, s: System)
    requires Inv(g, s)
    ensures forall d | d in s.clients && s.clients[d].session.Some? :: s.clients[d].session.value.q < s.nextQueue
  {
    hide Valid, ViewOk, Continues, Live, Evicted, Ending;
    forall d | d in s.clients && s.clients[d].session.Some? ensures s.clients[d].session.value.q < s.nextQueue {
      assert SessionOk(g, s.run, s.clients[d], s.clients[d].session.value);
    }
  }

  lemma {:induction false} ViewWithin(g: bool, h: seq<Event>, cl: Client)
    requires ViewOk(g, h, cl)
    ensures cl.last <= |h|
  {
  }

  lemma {:induction false} ViewConnects(g: bool, h: seq<Event>, cl: Client, cl': Client)
    requires ViewOk(g, h, cl) && !cl.ended && cl' == cl.(session := cl'.session)
    ensures ViewOk(g, h, cl')
  {
  }

  lemma {:induction false} DequeueValid(run: RunState<nat>, q: nat)
    requires Valid(run) && q in run.queues && run.queues[q] != []
    ensures var run' := run.(queues := run.queues[q := run.queues[q][1..]]);
            Valid(run') && Valid(Unsubscribe(run', q))
  {
  }

  /** Moving the head of the queue to the wire changes neither what is left to come nor where it ends. */
  lemma {:induction false} TakeEvent(g: bool, run: RunState<nat>, run': RunState<nat>, ss: Session, x: Item)
    requires ss.q in run.queues && run.queues[ss.q] != [] && x == run.queues[ss.q][0] && x.Deliver?
    requires ss.q in run'.queues && run'.queues[ss.q] == run.queues[ss.q][1..]
    requires run'.history == run.history && run'.terminal == run.terminal
    requires Numbered(run.history, run.terminal)
    requires Live(g, run, ss, run.queues[ss.q])
    requires ss.q in run'.subscribers <==> x.event.kind != End
    ensures var ss' := ss.(wire := ss.wire + [x]);
            Body(ss'.wire) == Body(ss.wire) + [x] &&
            (Live(g, run', ss', run'.queues[ss.q]) || Ending(g, run', ss', run'.queues[ss.q]))
  {
    hide Numbered;
    var h, body, items := run.history, Body(ss.wire), run.queues[ss.q];
    assert items == [x] + items[1..];
    assert body + items == (body + [x]) + items[1..];
    ChainAppend(g, h, ss.base, body, items);
    NotAReset(g, h, EndOf(ss.base, body), items);
    BodyAppend(ss.wire, [x]);
    ChainAppend(g, h, ss.base, body + [x], items[1..]);
    if x.event.kind == End {
      EndIsLast(run, x.event);
      ChainAtEnd(g, h, items[1..]);
    }
  }

  lemma {:induction false} EndIsLast(run: RunState<nat>, e: Event)
    requires Numbered(run.history, run.terminal) && InHistory(run.history, e)
    ensures e.kind == End <==> e.id == |run.history| && run.terminal.Some?
  {
  }

  lemma {:induction false} DequeueOk(g: bool, s: System, c: nat)
    requires Inv(g, s)
    ensures Inv(g, Dequeue(s, c))
  {
    hide Numbered, Chain, EndOf, ViewOk, Body, LogLines, Tail;
    var s' := Dequeue(s, c);
    if s' != s {
      var cl := s.clients[c];
      var ss := cl.session.value;
      var x := s.run.queues[ss.q][0];
      DequeueValid(s.run, ss.q);
      ViewIgnoresSession(g, s.run.history, cl, s'.clients[c]);
      if Live(g, s.run, ss, s.run.queues[ss.q]) {
        LiveDelivers(g, s.run, ss);
        TakeEvent(g, s.run, s'.run, ss, x);
        assert ss.wire != [] ==> (ss.wire + [x])[0] == ss.wire[0];
      }
      assert SessionOk(g, s'.run, s'.clients[c], s'.clients[c].session.value);
      ReplaceClient(g, s, s'.run, s.nextQueue, c, s'.clients[c], ss.q);
    }
  }

  lemma {:induction false} LiveDelivers(g: bool, run: RunState<nat>, ss: Session)
    requires ss.q in run.queues && Live(g, run, ss, run.queues[ss.q]) && run.queues[ss.q] != []
    ensures run.queues[ss.q][0].Deliver?
  {
    ChainAppend(g, run.history, ss.base, Body(ss.wire), run.queues[ss.q]);
  }

  /** An event that arrives in order extends the view. */
  lemma {:induction false} ViewTakes(g: bool, run: RunState<nat>, cl: Client, e: Event, cl': Client)
    requires Numbered(run.history, run.terminal) && ViewOk(g, run.history, cl) && !cl.ended
    requires InHistory(run.history, e) && e.kind != Reset
    requires cl.held == [] || (cl.last < e.id && (g ==> e.id == cl.last + 1))
    requires cl'.last == e.id && cl'.held == cl.held + [e] && cl'.ended == (e.kind == End)
    requires cl'.ended ==> cl'.session.None?
    ensures ViewOk(g, run.history, cl')
  {
    hide Numbered;
    var h := run.history;
    WrapAppend(cl.held, [e]);
    assert Wrap([e]) == [Deliver(e)] && [Deliver(e)][1..] == [];
    assert Chain(g, h, e.id - 1, [Deliver(e)]);
    if cl.held != [] {
      WrapEnd(cl.held);
      ChainAppend(g, h, cl.held[0].id - 1, Wrap(cl.held), [Deliver(e)]);
    } else {
      assert cl.held + [e] == [e];
    }
  }

  lemma {:induction false} WrapEnd(es: seq<Event>)
    requires es != []
    ensures Wrap(es) != [] && Wrap(es)[|Wrap(es)| - 1] == Deliver(es[|es| - 1])
  {
    WrapAppend(es[..|es| - 1], [es[|es| - 1]]);
    assert es == es[..|es| - 1] + [es[|es| - 1]];
  }

  /** Receiving the reset notice: the rest of the connection starts a new block. */
  lemma {:induction false} HearResetOk(g: bool, run: RunState<nat>, cl: Client)
    requires ClientOk(g, run, cl) && cl.session.Some?
    requires cl.session.value.wire != [] && cl.session.value.wire[0] == Deliver(RESET)
    ensures ClientOk(g, run, Hear(cl))
  {
  }

  lemma {:induction false} ViewNotEnded(g: bool, h: seq<Event>, cl: Client)
    requires ViewOk(g, h, cl) && cl.session.Some?
    ensures !cl.ended && cl.last <= |h|
  {
  }

  lemma {:induction false} BodyChain(g: bool, run: RunState<nat>, cl: Client)
    requires ClientOk(g, run, cl) && cl.session.Some?
    ensures var ss := cl.session.value;
            Chain(g, run.history, ss.base, Body(ss.wire)) && ss.q in run.queues
  {
    var ss := cl.session.value;
    ChainAppend(g, run.history, ss.base, Body(ss.wire), run.queues[ss.q]);
  }

  /** A chain goes on behind its first event. */
  lemma {:induction false} ChainStep(g: bool, h: seq<Event>, base: nat, wire: seq<Item>, items: seq<Item>)
    requires wire != [] && Chain(g, h, base, wire + items)
    ensures wire[0].Deliver? && InHistory(h, wire[0].event) && base < wire[0].event.id
    ensures g ==> wire[0].event.id == base + 1
    ensures Chain(g, h, wire[0].event.id, wire[1..] + items)
    ensures EndOf(wire[0].event.id, wire[1..] + items) == EndOf(base, wire + items)
  {
    assert (wire + items)[0] == wire[0];
    assert (wire + items)[1..] == wire[1..] + items;
    ChainEndInHistory(g, h, base, wire + items);
  }

  /** Receiving an event of the history: it extends the view, and the connection goes on behind it. */
  lemma {:induction false} HearEventOk(g: bool, run: RunState<nat>, cl: Client)
    requires ClientOk(g, run, cl) && cl.session.Some? && Numbered(run.history, run.terminal)
    requires cl.session.value.wire != [] && cl.session.value.wire[0] != Deliver(RESET)
    ensures ClientOk(g, run, Hear(cl))
  {
    hide Chain, EndOf, ViewOk, Numbered, InHistory;
    var h, ss := run.history, cl.session.value;
    var items := run.queues[ss.q];
    var x, rest := ss.wire[0], ss.wire[1..];
    BodyChain(g, run, cl);
    assert Body(ss.wire) == ss.wire && ss.wire + [] == ss.wire && rest + [] == rest;
    ChainStep(g, h, ss.base, ss.wire, []);
    EventKind(run, x.event);
    ViewNotEnded(g, h, cl);
    var cl' := Hear(cl);
    ViewTakes(g, run, cl, x.event, cl');
    if x.event.kind != End {
      if rest != [] {
        NotAReset(g, h, x.event.id, rest);
      }
      assert Body(rest) == rest;
      if Live(g, run, ss, items) {
        ChainStep(g, h, ss.base, ss.wire, items);
      } else if Ending(g, run, ss, items) {
        EndIsLast(run, x.event);
        EndOfNothing(x.event.id);
      }
    }
  }

  lemma {:induction false} EndOfNothing(last: nat)
    ensures EndOf(last, []) == last
  {
  }

  lemma {:induction false} EventKind(run: RunState<nat>, e: Event)
    requires Numbered(run.history, run.terminal) && InHistory(run.history, e)
    ensures e.kind != Reset
  {
  }

  lemma {:induction false} HearOk(g: bool, s: System, c: nat)
    requires Inv(g, s) && c in s.clients
    ensures Inv(g, s.(clients := s.clients[c := Hear(s.clients[c])]))
  {
    hide Numbered, Chain, EndOf, ViewOk, LogLines, Tail, SessionOk;
    var cl := s.clients[c];
    if cl.session.Some? {
      var ss := cl.session.value;
      if ss.wire == [] {
        ViewIgnoresSession(g, s.run.history, cl, Hear(cl));
      } else if ss.wire[0] == Deliver(RESET) {
        HearResetOk(g, s.run, cl);
      } else {
        HearEventOk(g, s.run, cl);
      }
      SessionQueue(g, s.run, cl);
      ReplaceClient(g, s, s.run, s.nextQueue, c, Hear(cl), ss.q);
    } else {
      assert s.clients[c := Hear(cl)] == s.clients;
    }
  }

  lemma {:induction false} SessionQueue(g: bool, run: RunState<nat>, cl: Client)
    requires ClientOk(g, run, cl) && cl.session.Some?
    ensures cl.session.value.q in run.queues
  {
  }

  lemma {:induction false} DisconnectOk(g: bool, s: System, c: nat)
    requires Inv(g, s) && c in s.clients
    ensures Inv(g, s.(clients := s.clients[c := s.clients[c].(session := None)]))
  {
    hide Numbered, Chain, EndOf, ViewOk, LogLines, Tail, SessionOk;
    var cl := s.clients[c];
    ViewIgnoresSession(g, s.run.history, cl, cl.(session := None));
    if cl.session.Some? {
      ReplaceClient(g, s, s.run, s.nextQueue, c, cl.(session := None), cl.session.value.q);
    } else {
      assert s.clients[c := cl.(session := None)] == s.clients;
    }
  }

  lemma {:induction false} ReapOk(g: bool, s: System, q: nat)
    requires Inv(g, s)
    ensures Inv(g, Apply(s, Reap(q)))
  {
    hide Numbered, Chain, EndOf, ViewOk, LogLines, Tail;
    UnsubscribeKeepsValid(s.run, q);
    forall c | c in s.clients && Apply(s, Reap(q)) != s ensures ClientOk(g, Unsubscribe(s.run, q), s.clients[c]) {
      ClientFrame(g, s.run, Unsubscribe(s.run, q), s.clients[c]);
    }
  }

  lemma {:induction false} StepKeepsInv(g: bool, s: System, step: Step)
    requires Inv(g, s) && (g ==> CleanStep(s.run.bounds.queueSize, step))
    ensures Inv(g, Apply(s, step))
  {
    hide Valid, ClientOk, Join, Dequeue, Hear, Broadcast, Separate;
    match step
    case EmitLine(line, drains) =>
      if s.run.terminal.None? {
        EmitKeepsValid(s.run, line);
        EmitPublishes(s.run, line);
        var run' := Emit(s.run, line);
        BroadcastOk(g, s, run', run'.history[|run'.history| - 1], drains);
      }
    case FinishRun(rc, recording, drains) =>
      if s.run.terminal.None? {
        FinishKeepsValid(s.run, rc, recording);
        FinishPublishes(s.run, rc, recording);
        var run' := Finish(s.run, rc, recording);
        BroadcastOk(g, s, run', run'.history[|run'.history| - 1], drains);
      }
    case Connect(c) => JoinOk(g, s, c);
    case Take(c) => DequeueOk(g, s, c);
    case Receive(c) => if c in s.clients { HearOk(g, s, c); }
    case Disconnect(c) => if c in s.clients { DisconnectOk(g, s, c); }
    case Reap(q) => ReapOk(g, s, q);
  }

  lemma {:induction false} StepKeepsBounds(s: System, step: Step)
    ensures Apply(s, step).run.bounds == s.run.bounds
  {
  }

  lemma {:induction false} StartOk(g: bool, bounds: Bounds)
    requires bounds.maxLines > 0 && bounds.queueSize > 0
    ensures Inv(g, Start(bounds))
  {
  }

  /** Every run keeps the invariant: with clean drains the gapless one, with any drains the weak one. */
  lemma {:induction false} RunKeepsInv(g: bool, s: System, steps: seq<Step>)
    requires Inv(g, s)
    requires g ==> forall i | 0 <= i < |steps| :: CleanStep(s.run.bounds.queueSize, steps[i])
    ensures Inv(g, Exec(s, steps)) && Exec(s, steps).run.bounds == s.run.bounds
    decreases steps
  {
    hide Inv, Apply, CleanStep;
    if steps != [] {
      StepKeepsInv(g, s, steps[0]);
      StepKeepsBounds(s, steps[0]);
      RunKeepsInv(g, Apply(s, steps[0]), steps[1..]);
    }
  }
}
