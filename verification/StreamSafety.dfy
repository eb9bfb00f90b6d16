/** What the state machine of Stream guarantees over every run. */
module StreamSafety {
  import opened Common
  import opened RunLog
  import opened Stream

  predicate AllClean(size: nat, steps: seq<Step>) {
    forall i | 0 <= i < |steps| :: CleanStep(size, steps[i])
  }

  /** The state after any sequence of steps from a new run. */
  function Reached(bounds: Bounds, steps: seq<Step>): System {
    Exec(Start(bounds), steps)
  }

  lemma {:induction false} ReachedInv(g: bool, bounds: Bounds, steps: seq<Step>)
    requires bounds.maxLines > 0 && bounds.queueSize > 0
    requires g ==> AllClean(bounds.queueSize, steps)
    ensures Inv(g, Reached(bounds, steps)) && Reached(bounds, steps).run.bounds == bounds
  {
    hide Inv;
    StartOk(g, bounds);
    RunKeepsInv(g, Start(bounds), steps);
  }

  // ------------------------------------------------------------------ views

  /** What a browser shows since its last reset: one block of the published history, ending at its last id. */
  predicate ShowsBlock(h: seq<Event>, cl: Client) {
    |cl.held| <= cl.last <= |h| && cl.held == h[cl.last - |cl.held|..cl.last]
  }

  lemma {:induction false} WrapInjective(a: seq<Event>, b: seq<Event>)
    requires Wrap(a) == Wrap(b)
    ensures a == b
  {
    WrapFacts(a);
    WrapFacts(b);
    if a != [] {
      assert Wrap(a)[0] == Wrap(b)[0];
      WrapInjective(a[1..], b[1..]);
    }
  }

  lemma {:induction false} ViewIsBlock(h: seq<Event>, cl: Client)
    requires ViewOk(true, h, cl)
    ensures ShowsBlock(h, cl)
  {
    hide Chain;
    if cl.held != [] {
      var start := cl.held[0].id - 1;
      WrapFacts(cl.held);
      WrapEnd(cl.held);
      ChainEndInHistory(true, h, start, Wrap(cl.held));
      ChainIsBlock(h, start, Wrap(cl.held));
      WrapInjective(cl.held, h[start..start + |cl.held|]);
    }
  }

  /**
    * Over every interleaving of output, finish, connects, dequeues, receptions, disconnects and evictions
    * with clean drains, no client ever shows a gap or a duplicate.
    */
  lemma {:induction false} ViewsAreGapless(bounds: Bounds, steps: seq<Step>, c: nat)
    requires bounds.maxLines > 0 && bounds.queueSize > 0 && AllClean(bounds.queueSize, steps)
    requires c in Reached(bounds, steps).clients
    ensures var s := Reached(bounds, steps); ShowsBlock(s.run.history, s.clients[c])
  {
    hide Reached, ViewOk, SessionOk, Valid;
    ReachedInv(true, bounds, steps);
    ViewIsBlock(Reached(bounds, steps).run.history, Reached(bounds, steps).clients[c]);
  }

  predicate Increasing(es: seq<Event>) {
    forall i, j | 0 <= i < j < |es| :: es[i].id < es[j].id
  }

  lemma {:induction false} ChainIncreases(g: bool, h: seq<Event>, last: nat, es: seq<Event>)
    requires Chain(g, h, last, Wrap(es))
    ensures Increasing(es) && forall i | 0 <= i < |es| :: InHistory(h, es[i]) && es[i].id > last
    decreases es
  {
    if es != [] {
      WrapFacts(es);
      ChainIncreases(g, h, es[0].id, es[1..]);
      assert es == [es[0]] + es[1..];
    }
  }

  /** Whatever the drains do, a client shows published events with increasing ids. */
  lemma {:induction false} ViewsIncrease(bounds: Bounds, steps: seq<Step>, c: nat)
    requires bounds.maxLines > 0 && bounds.queueSize > 0
    requires c in Reached(bounds, steps).clients
    ensures var s := Reached(bounds, steps);
            Increasing(s.clients[c].held) && forall e | e in s.clients[c].held :: InHistory(s.run.history, e)
  {
    hide Reached, SessionOk, Valid, Chain, InHistory, Increasing;
    ReachedInv(false, bounds, steps);
    var s := Reached(bounds, steps);
    if s.clients[c].held != [] {
      ChainIncreases(false, s.run.history, s.clients[c].held[0].id - 1, s.clients[c].held);
    } else {
      NothingIncreases();
    }
  }

  lemma {:induction false} NothingIncreases()
    ensures Increasing([])
  {
  }

  // ------------------------------------------------------------------ live streams

  /** The events on the way to a subscribed client. */
  function Coming(s: System, ss: Session): seq<Item>
    requires ss.q in s.run.queues
  {
    Body(ss.wire) + s.run.queues[ss.q]
  }

  /**
    * A subscribed client misses nothing: what it shows and what is on its way make up the history from the
    * first event shown to the newest; after a reset, from the first event on the way.
    */
  lemma {:induction false} LiveStreamIsComplete(s: System, c: nat)
    requires Inv(true, s) && c in s.clients && s.clients[c].session.Some?
    requires s.clients[c].session.value.q in s.run.subscribers
    ensures var cl := s.clients[c];
            var ss := cl.session.value;
            && ss.q in s.run.queues && ss.base <= |s.run.history| && |cl.held| <= cl.last <= |s.run.history|
            && Coming(s, ss) == Wrap(s.run.history[ss.base..])
            && (ss.base != cl.last ==> ss.wire != [] && (cl.held == [] || ss.wire[0] == Deliver(RESET)))
            && (ss.base == cl.last ==> Wrap(cl.held) + Coming(s, ss) == Wrap(s.run.history[cl.last - |cl.held|..]))
  {
    hide Valid, ViewOk, Chain, Wrap;
    var h, cl := s.run.history, s.clients[c];
    var ss := cl.session.value;
    assert SessionOk(true, s.run, cl, ss);
    var r := Coming(s, ss);
    BaseWithin(h, ss.base, r);
    ChainIsBlock(h, ss.base, r);
    assert h[ss.base..] == h[ss.base..ss.base + |r|];
    ViewIsBlock(h, cl);
    if ss.base == cl.last {
      var from := cl.last - |cl.held|;
      assert h[from..] == cl.held + h[cl.last..];
      WrapAppend(cl.held, h[cl.last..]);
    }
  }

  lemma {:induction false} BaseWithin(h: seq<Event>, base: nat, r: seq<Item>)
    requires Chain(true, h, base, r) && EndOf(base, r) == |h|
    ensures base <= |h|
  {
  }

  // ------------------------------------------------------------------ the terminal event

  lemma {:induction false} FinishedRunIsFrozen(s: System, steps: seq<Step>)
    requires s.run.terminal.Some?
    ensures Exec(s, steps).run.terminal == s.run.terminal && Exec(s, steps).run.history == s.run.history
    decreases steps
  {
    if steps != [] {
      hide Hear, Backlog, Overtaken, Exec;
      StepFrozen(s, steps[0]);
      ExecStep(s, steps);
      FinishedRunIsFrozen(Apply(s, steps[0]), steps[1..]);
    }
  }

  lemma {:induction false} ExecStep(s: System, steps: seq<Step>)
    requires steps != []
    ensures Exec(s, steps) == Exec(Apply(s, steps[0]), steps[1..])
  {
  }

  lemma {:induction false} StepFrozen(s: System, step: Step)
    requires s.run.terminal.Some?
    ensures Apply(s, step).run.terminal == s.run.terminal && Apply(s, step).run.history == s.run.history
  {
  }

  /** At most one event of a history is terminal, and then it is the last one. */
  lemma {:induction false} TerminalIsUnique(g: bool, s: System, i: nat)
    requires Inv(g, s) && i < |s.run.history| && s.run.history[i].kind == End
    ensures i == |s.run.history| - 1 && s.run.terminal == Some(s.run.history[i])
  {
  }

  /** The items left in a session, with the marker when the queue was evicted. */
  function Remaining(s: System, ss: Session): seq<Item>
    requires ss.q in s.run.queues
  {
    Body(ss.wire) + s.run.queues[ss.q] + if ss.closing then [Marker] else []
  }

  /** Once a run has finished, what is left of any connection ends in its terminal event or in the marker. */
  lemma {:induction false} EveryStreamEnds(g: bool, s: System, c: nat)
    requires Inv(g, s) && s.run.terminal.Some? && c in s.clients && s.clients[c].session.Some?
    ensures var ss := s.clients[c].session.value;
            && ss.q in s.run.queues
            && var r := Remaining(s, ss);
               r != [] && (r[|r| - 1] == Marker || r[|r| - 1] == Deliver(s.run.terminal.value))
  {
    hide Chain, EndOf, ViewOk, Numbered, LogLines, Tail;
    var h, cl := s.run.history, s.clients[c];
    var ss := cl.session.value;
    assert SessionOk(g, s.run, cl, ss);
    var items := s.run.queues[ss.q];
    if !Evicted(g, s.run, ss, items) {
      var r := Body(ss.wire) + items;
      assert r + [] == r;
      assert Body(ss.wire) + [] == Body(ss.wire);
      ViewNotEnded(g, h, cl);
      LastIsTerminal(g, s.run, cl, ss, r);
    }
  }

  lemma {:induction false} LastIsTerminal(g: bool, run: RunState<nat>, cl: Client, ss: Session, r: seq<Item>)
    requires Numbered(run.history, run.terminal) && run.terminal.Some?
    requires ViewOk(g, run.history, cl) && !cl.ended && Continues(cl, ss)
    requires Chain(g, run.history, ss.base, r) && EndOf(ss.base, r) == |run.history|
    requires r == [] ==> ss.base == cl.last
    ensures r != [] && r[|r| - 1] == Deliver(run.terminal.value)
  {
    if r == [] {
      FinishedLeavesSome(g, run, cl);
    } else {
      ChainEndInHistory(g, run.history, ss.base, r);
    }
  }

  /** Without the marker, if it stands at the end. */
  function BeforeMarker(r: seq<Item>): seq<Item> {
    if r != [] && r[|r| - 1] == Marker then r[..|r| - 1] else r
  }

  /** However drains are interleaved, a connection gets published events with increasing ids, and the marker last. */
  lemma {:induction false} MarkerIsLast(bounds: Bounds, steps: seq<Step>, c: nat)
    requires bounds.maxLines > 0 && bounds.queueSize > 0
    requires var s := Reached(bounds, steps); c in s.clients && s.clients[c].session.Some?
    ensures var s := Reached(bounds, steps);
            var ss := s.clients[c].session.value;
            && ss.q in s.run.queues
            && Chain(false, s.run.history, ss.base, BeforeMarker(Remaining(s, ss)))
  {
    hide Reached, Chain, Live, Evicted, Ending, ViewOk, Valid, Body, Continues, BeforeMarker;
    ReachedInv(false, bounds, steps);
    var s := Reached(bounds, steps);
    var ss := s.clients[c].session.value;
    assert SessionOk(false, s.run, s.clients[c], ss);
    LeftOfSession(s.run, ss, s.run.queues[ss.q]);
  }

  lemma {:induction false} LeftOfSession(run: RunState<nat>, ss: Session, items: seq<Item>)
    requires Live(false, run, ss, items) || Evicted(false, run, ss, items) || Ending(false, run, ss, items)
    ensures var r := Body(ss.wire) + items + if ss.closing then [Marker] else [];
            Chain(false, run.history, ss.base, BeforeMarker(r))
  {
    hide Chain, EndOf, Body;
    var body := Body(ss.wire);
    if Evicted(false, run, ss, items) {
      assert body + items + (if ss.closing then [Marker] else []) == body + [Marker];
      assert (body + [Marker])[..|body|] == body;
    } else {
      var r := body + items;
      assert r + [] == r && body + [] == body;
      if r != [] {
        ChainEndInHistory(false, run.history, ss.base, r);
      }
    }
  }

  // ------------------------------------------------------------------ reaching the terminal event

  lemma {:induction false} ExecAppend(s: System, a: seq<Step>, b: seq<Step>)
    ensures Exec(s, a + b) == Exec(Exec(s, a), b)
    decreases a
  {
    hide Apply;
    if a == [] {
      assert a + b == b;
    } else {
      assert (a + b)[0] == a[0] && (a + b)[1..] == a[1..] + b;
      ExecAppend(Apply(s, a[0]), a[1..], b);
    }
  }

  /** The session was evicted: its marker is queued or was read. */
  predicate Cut(s: System, ss: Session) {
    ss.closing || (ss.q in s.run.queues && s.run.queues[ss.q] == [Marker])
  }

  function QueueOf(s: System, ss: Session): seq<Item> {
    if ss.q in s.run.queues then s.run.queues[ss.q] else []
  }

  /** What a client that reads on does next. */
  function ReadOn(s: System, c: nat, ss: Session): Step {
    if QueueOf(s, ss) != [] then Take(c) else Receive(c)
  }

  /** `s'` is nearer to the end of the session `ss` of `c`, and cut only if the session already was. */
  predicate Nearer(s: System, s': System, c: nat, ss: Session) {
    && c in s'.clients && s'.run.subscribers <= s.run.subscribers && s'.run.bounds == s.run.bounds
    && match s'.clients[c].session
       case None => Cut(s, ss) || s'.clients[c].ended
       case Some(ss') =>
         && 2 * |QueueOf(s', ss')| + |ss'.wire| < 2 * |QueueOf(s, ss)| + |ss.wire|
         && (Cut(s', ss') ==> Cut(s, ss))
  }

  lemma {:induction false} TakeProgress(g: bool, s: System, c: nat, ss: Session)
    requires Inv(g, s) && c in s.clients && s.clients[c].session == Some(ss) && QueueOf(s, ss) != []
    ensures Nearer(s, Apply(s, Take(c)), c, ss)
  {
    hide Valid, Chain, EndOf, ViewOk, Continues;
    assert SessionOk(g, s.run, s.clients[c], ss);
    if Live(g, s.run, ss, QueueOf(s, ss)) {
      AllDeliver(g, s.run.history, ss.base, Body(ss.wire), QueueOf(s, ss));
    }
  }

  lemma {:induction false} ReceiveProgress(g: bool, s: System, c: nat, ss: Session)
    requires Inv(g, s) && s.run.terminal.Some?
    requires c in s.clients && s.clients[c].session == Some(ss) && QueueOf(s, ss) == []
    ensures Nearer(s, Apply(s, Receive(c)), c, ss)
  {
    hide Valid, Chain, EndOf, ViewOk, Continues, Separate;
    EveryStreamEnds(g, s, c);
    if ss.wire != [] {
      WireDelivers(g, s.run, s.clients[c]);
    } else {
      assert Body(ss.wire) + QueueOf(s, ss) == [];
    }
  }

  /** Reading on makes progress, keeps an uncut session uncut, and closes one only with the terminal event. */
  lemma {:induction false} ReadOnProgress(g: bool, s: System, c: nat)
    requires Inv(g, s) && s.run.terminal.Some? && c in s.clients && s.clients[c].session.Some?
    ensures var ss := s.clients[c].session.value; Nearer(s, Apply(s, ReadOn(s, c, ss)), c, ss)
  {
    hide Inv, Apply, Nearer;
    var ss := s.clients[c].session.value;
    if QueueOf(s, ss) != [] {
      TakeProgress(g, s, c, ss);
    } else {
      ReceiveProgress(g, s, c, ss);
    }
  }

  lemma {:induction false} AllDeliver(g: bool, h: seq<Event>, base: nat, body: seq<Item>, items: seq<Item>)
    requires Chain(g, h, base, body + items) && items != []
    ensures items[0].Deliver? && items[|items| - 1].Deliver?
  {
    ChainAppend(g, h, base, body, items);
    ChainEndInHistory(g, h, EndOf(base, body), items);
  }

  lemma {:induction false} WireDelivers(g: bool, run: RunState<nat>, cl: Client)
    requires ClientOk(g, run, cl) && cl.session.Some? && cl.session.value.wire != []
    ensures cl.session.value.wire[0].Deliver?
  {
  }

  /** A client that reads its connection to the end learns the result, unless it was evicted. */
  lemma {:induction false} ReadToEnd(s: System, c: nat) returns (steps: seq<Step>)
    requires Inv(false, s) && s.run.terminal.Some? && c in s.clients && s.clients[c].session.Some?
    ensures forall i | 0 <= i < |steps| :: steps[i] == Take(c) || steps[i] == Receive(c)
    ensures var s' := Exec(s, steps);
            && c in s'.clients && s'.clients[c].session.None?
            && s'.run.subscribers <= s.run.subscribers && s'.run.bounds == s.run.bounds
            && (Cut(s, s.clients[c].session.value) || s'.clients[c].ended)
    decreases 2 * |QueueOf(s, s.clients[c].session.value)| + |s.clients[c].session.value.wire|
  {
    hide Inv, Apply, Cut, QueueOf;
    var ss := s.clients[c].session.value;
    var step := ReadOn(s, c, ss);
    var s1 := Apply(s, step);
    ReadOnProgress(false, s, c);
    StepKeepsInv(false, s, step);
    steps := [step];
    if s1.clients[c].session.Some? {
      StepFrozen(s, step);
      var more := ReadToEnd(s1, c);
      assert ([step] + more)[1..] == more;
      steps := [step] + more;
    } else {
      assert [step][1..] == [];
    }
  }

  /** A client that reads its connection leaves every other client as it is. */
  lemma {:induction false} OthersUntouched(s: System, steps: seq<Step>, d: nat)
    requires forall i | 0 <= i < |steps| :: steps[i] == Take(d) || steps[i] == Receive(d)
    ensures var s' := Exec(s, steps);
            s'.clients.Keys == s.clients.Keys && forall e | e in s.clients && e != d :: s'.clients[e] == s.clients[e]
    decreases steps
  {
    hide Hear;
    if steps != [] {
      OthersUntouched(Apply(s, steps[0]), steps[1..], d);
    }
  }

  /** A handler whose connection is gone returns and gives its slot back. */
  lemma {:induction false} GiveBack(s: System, q: nat)
    requires q in s.run.subscribers && |s.run.subscribers| <= s.run.bounds.maxSubscribers
    requires forall c | c in s.clients && s.clients[c].session.Some? :: s.clients[c].session.value.q != q
    ensures !Refuses(Apply(s, Reap(q)).run) && Apply(s, Reap(q)).clients == s.clients
  {
    assert s.run.subscribers - {q} < s.run.subscribers;
    assert s.run.subscribers == (s.run.subscribers - {q}) + {q};
  }

  /** What still happens once a run is over: handlers and browsers read on, handlers return, `c` reconnects. */
  predicate Winding(c: nat, step: Step) {
    step.Take? || step.Receive? || step.Reap? || step == Connect(c)
  }

  predicate AllWinding(c: nat, steps: seq<Step>) {
    forall i | 0 <= i < |steps| :: Winding(c, steps[i])
  }

  /** The holder of a queue reads to its end; then the queue is nobody's. */
  lemma {:induction false} Release(s: System, c: nat, q: nat) returns (steps: seq<Step>)
    requires Inv(false, s) && s.run.terminal.Some? && c in s.clients && s.clients[c].session.None?
    ensures AllWinding(c, steps)
    ensures var s' := Exec(s, steps);
            && c in s'.clients && s'.clients[c] == s.clients[c]
            && s'.run.subscribers <= s.run.subscribers && s'.run.bounds == s.run.bounds
            && forall d | d in s'.clients && s'.clients[d].session.Some? :: s'.clients[d].session.value.q != q
  {
    hide Valid, ClientOk, Apply, Cut, Exec;
    if d :| d in s.clients && s.clients[d].session.Some? && s.clients[d].session.value.q == q {
      steps := ReadToEnd(s, d);
      OthersUntouched(s, steps, d);
    } else {
      steps := [];
      assert Exec(s, steps) == s by { ExecNothing(s); }
    }
  }

  lemma {:induction false} ExecNothing(s: System)
    ensures Exec(s, []) == s
  {
  }

  /** Once the run is over, a slot becomes free without the help of `c`. */
  lemma {:induction false} FreeSlot(s: System, c: nat) returns (steps: seq<Step>)
    requires Inv(false, s) && s.run.terminal.Some? && s.run.bounds.maxSubscribers > 0
    requires c in s.clients && s.clients[c].session.None?
    ensures AllWinding(c, steps)
    ensures var s' := Exec(s, steps); c in s'.clients && s'.clients[c] == s.clients[c] && !Refuses(s'.run)
  {
    hide Numbered, LogLines, Tail, ClientOk, Separate, Apply, Exec;
    if !Refuses(s.run) {
      steps := [];
      ExecNothing(s);
    } else {
      assert s.run.subscribers != {};
      var q :| q in s.run.subscribers;
      steps := Release(s, c, q);
      var s1 := Exec(s, steps);
      SubsetCardinality(s1.run.subscribers, s.run.subscribers);
      if q in s1.run.subscribers {
        GiveBack(s1, q);
        ExecAppend(s, steps, [Reap(q)]);
        ExecAt(s1, [Reap(q)], 0);
        assert [Reap(q)][0..] == [Reap(q)];
        steps := steps + [Reap(q)];
      } else {
        SlotGone(s1.run.subscribers, s.run.subscribers, q);
      }
    }
  }

  lemma {:induction false} SlotGone(a: set<nat>, b: set<nat>, q: nat)
    requires a <= b && q in b && q !in a
    ensures |a| < |b|
  {
    SubsetCardinality(a, b - {q});
    assert b == (b - {q}) + {q};
  }

  /** A client without a connection gets to the terminal event once the run is over. */
  lemma {:induction false} ConnectToEnd(s: System, c: nat) returns (steps: seq<Step>)
    requires Inv(false, s) && s.run.terminal.Some? && s.run.bounds.maxSubscribers > 0
    requires c in s.clients && !s.clients[c].ended && s.clients[c].session.None?
    ensures AllWinding(c, steps) && c in Exec(s, steps).clients && Exec(s, steps).clients[c].ended
  {
    hide Inv, Apply, Refuses, Exec;
    var first := FreeSlot(s, c);
    FinishedRunIsFrozen(s, first);
    RunKeepsInv(false, s, first);
    var second := ReconnectToEnd(Exec(s, first), c);
    ExecAppend(s, first, second);
    steps := first + second;
  }

  /**
    * No client loses the result of a run: from any state after the finish, whatever was evicted or
    * disconnected before and however many slots are taken, the readers reading on, handlers returning
    * and at most one reconnect bring a client to the terminal event.
    */
  lemma {:induction false} ResultIsReachable(bounds: Bounds, past: seq<Step>, c: nat) returns (steps: seq<Step>)
    requires bounds.maxLines > 0 && bounds.queueSize > 0 && bounds.maxSubscribers > 0
    requires var s := Reached(bounds, past);
             s.run.terminal.Some? && c in s.clients && !s.clients[c].ended
    ensures AllWinding(c, steps)
    ensures var s' := Reached(bounds, past + steps);
            c in s'.clients && s'.clients[c].ended && s'.run.terminal == Reached(bounds, past).run.terminal
  {
    hide Inv, Apply, Cut, Exec;
    var s := Reached(bounds, past);
    ReachedInv(false, bounds, past);
    var first: seq<Step> := [];
    ExecNothing(s);
    if s.clients[c].session.Some? {
      first := ReadToEnd(s, c);
    }
    var s1 := Exec(s, first);
    FinishedRunIsFrozen(s, first);
    RunKeepsInv(false, s, first);
    steps := first;
    if !s1.clients[c].ended {
      var second := ConnectToEnd(s1, c);
      steps := first + second;
      ExecAppend(s, first, second);
    }
    ExecAppend(Start(bounds), past, steps);
    FinishedRunIsFrozen(s, steps);
  }

  /** A connection made after the finish is never evicted. */
  lemma {:induction false} ReconnectToEnd(s: System, c: nat) returns (steps: seq<Step>)
    requires Inv(false, s) && s.run.terminal.Some? && !Refuses(s.run)
    requires c in s.clients && !s.clients[c].ended && s.clients[c].session.None?
    ensures AllWinding(c, steps)
    ensures c in Exec(s, steps).clients && Exec(s, steps).clients[c].ended
  {
    hide Valid, ClientOk, Backlog, Wrap, Exec;
    var s1 := Apply(s, Connect(c));
    StepKeepsInv(false, s, Connect(c));
    StepFrozen(s, Connect(c));
    assert s.nextQueue !in s.run.queues;
    assert !Cut(s1, s1.clients[c].session.value);
    var more := ReadToEnd(s1, c);
    steps := [Connect(c)] + more;
    assert steps[1..] == more;
    ExecStep(s, steps);
  }

  // ------------------------------------------------------------------ within the ring's capacity

  /** Never reset, and shown everything up to the last id. */
  predicate Whole(cl: Client) {
    && cl.resets == 0 && |cl.held| == cl.last
    && (cl.session.Some? ==> cl.session.value.wire != [] ==> cl.session.value.wire[0] != Deliver(RESET))
  }

  predicate AllWhole(s: System) {
    forall c | c in s.clients :: Whole(s.clients[c])
  }

  lemma {:induction false} WholeOvertaken(run: RunState<nat>, cl: Client, turns: seq<Turn>)
    requires Whole(cl) && ClientOk(true, run, cl)
    ensures Whole(Overtaken(run, cl, turns))
  {
    hide EndOf, ViewOk;
    if cl.session.Some? && Full(run, cl.session.value.q) {
      var ss := cl.session.value;
      var items := run.queues[ss.q];
      ChainAppend(true, run.history, ss.base, Body(ss.wire), items);
      GaplessIsIncreasing(run.history, EndOf(ss.base, Body(ss.wire)), items);
      GrabbedIncreases(run.history, EndOf(ss.base, Body(ss.wire)), items, turns);
    }
  }

  lemma {:induction false} BacklogNotReset(run: RunState<nat>, cl: Client)
    requires Valid(run) && cl.last <= |run.history| <= run.bounds.maxLines
    requires run.terminal.Some? ==> cl.last < |run.history|
    ensures var wire := Wrap(Backlog(run, cl.last)); wire != [] ==> wire[0] != Deliver(RESET)
  {
    hide Numbered, LogLines, Backlog, Wrap, Body, Reaches;
    BacklogStream(run, cl);
    BacklogIs(run, cl.last);
    NumberedIds(run.history, run.terminal);
  }

  lemma {:induction false} WholeJoin(s: System, c: nat)
    requires Inv(true, s) && AllWhole(s) && |s.run.history| <= s.run.bounds.maxLines
    ensures AllWhole(Join(s, c))
  {
    hide Numbered, LogLines, Tail, Chain, EndOf, ViewOk, SessionOk, Backlog, Wrap;
    var cl := ClientOf(s, c);
    NewClientOk(true, s.run);
    ViewWithin(true, s.run.history, cl);
    if Join(s, c) != s {
      if s.run.terminal.Some? {
        FinishedLeavesSome(true, s.run, cl);
      }
      BacklogNotReset(s.run, cl);
    }
  }

  lemma {:induction false} WholeDequeue(s: System, c: nat)
    requires Inv(true, s) && AllWhole(s)
    ensures AllWhole(Dequeue(s, c))
  {
    hide Valid, EndOf, ViewOk, Chain, Body;
    if Dequeue(s, c) != s {
      var ss := s.clients[c].session.value;
      if Live(true, s.run, ss, s.run.queues[ss.q]) {
        ChainAppend(true, s.run.history, ss.base, Body(ss.wire), s.run.queues[ss.q]);
        NotAReset(true, s.run.history, EndOf(ss.base, Body(ss.wire)), s.run.queues[ss.q]);
      }
    }
  }

  lemma {:induction false} WholeHear(run: RunState<nat>, cl: Client)
    requires Numbered(run.history, run.terminal) && ClientOk(true, run, cl) && Whole(cl)
    ensures Whole(Hear(cl))
  {
    hide EndOf, ViewOk, Chain, Numbered, InHistory;
    if cl.session.Some? && cl.session.value.wire != [] {
      var ss := cl.session.value;
      BodyChain(true, run, cl);
      assert ss.wire + [] == ss.wire && ss.wire[1..] + [] == ss.wire[1..];
      ChainStep(true, run.history, ss.base, ss.wire, []);
      EventKind(run, ss.wire[0].event);
      if ss.wire[1..] != [] {
        NotAReset(true, run.history, ss.wire[0].event.id, ss.wire[1..]);
      }
    }
  }

  lemma {:induction false} WholeStep(s: System, step: Step)
    requires Inv(true, s) && AllWhole(s) && |s.run.history| <= s.run.bounds.maxLines
    ensures AllWhole(Apply(s, step))
  {
    hide Numbered, LogLines, Tail, ClientOk, Join, Dequeue, Hear, Whole, Overtaken, Emit, Finish;
    match step
    case EmitLine(_, drains) =>
      forall c | c in s.clients ensures Whole(Overtaken(s.run, s.clients[c], Turns(drains, c))) {
        WholeOvertaken(s.run, s.clients[c], Turns(drains, c));
      }
    case FinishRun(_, _, drains) =>
      forall c | c in s.clients ensures Whole(Overtaken(s.run, s.clients[c], Turns(drains, c))) {
        WholeOvertaken(s.run, s.clients[c], Turns(drains, c));
      }
    case Connect(c) => WholeJoin(s, c);
    case Take(c) => WholeDequeue(s, c);
    case Receive(c) => if c in s.clients { WholeHear(s.run, s.clients[c]); }
    case Disconnect(c) => if c in s.clients { WholeDisconnect(s.clients[c]); }
    case Reap(q) =>
  }

  lemma {:induction false} WholeDisconnect(cl: Client)
    requires Whole(cl)
    ensures Whole(cl.(session := None))
  {
  }

  lemma {:induction false} HistoryGrows(s: System, steps: seq<Step>)
    requires Inv(false, s)
    ensures |s.run.history| <= |Exec(s, steps).run.history|
    decreases steps
  {
    hide Inv, Apply;
    if steps != [] {
      StepKeepsInv(false, s, steps[0]);
      StepGrows(s, steps[0]);
      HistoryGrows(Apply(s, steps[0]), steps[1..]);
    }
  }

  lemma {:induction false} StepGrows(s: System, step: Step)
    ensures |s.run.history| <= |Apply(s, step).run.history|
  {
  }

  lemma {:induction false} WholeRun(s: System, steps: seq<Step>)
    requires Inv(true, s) && Inv(false, s) && AllWhole(s) && AllClean(s.run.bounds.queueSize, steps)
    requires |Exec(s, steps).run.history| <= s.run.bounds.maxLines
    ensures AllWhole(Exec(s, steps))
    decreases steps
  {
    hide Inv, Apply, CleanStep, AllWhole;
    if steps != [] {
      HistoryGrows(s, steps);
      StepKeepsInv(true, s, steps[0]);
      StepKeepsInv(false, s, steps[0]);
      StepKeepsBounds(s, steps[0]);
      WholeStep(s, steps[0]);
      WholeRun(Apply(s, steps[0]), steps[1..]);
    }
  }

  /**
    * As long as the whole output fits the ring, every client shows the whole output up to its last id,
    * however often it was evicted or disconnected; one that got the result shows all of it.
    */
  lemma {:induction false} WholeLogWithinCapacity(bounds: Bounds, steps: seq<Step>, c: nat)
    requires bounds.maxLines > 0 && bounds.queueSize > 0 && AllClean(bounds.queueSize, steps)
    requires var s := Reached(bounds, steps); c in s.clients && |s.run.history| <= bounds.maxLines
    ensures var s := Reached(bounds, steps);
            var cl := s.clients[c];
            && cl.resets == 0 && cl.last <= |s.run.history| && cl.held == s.run.history[..cl.last]
            && (cl.ended ==> cl.held == s.run.history)
  {
    hide Valid, SessionOk, Exec, CleanStep;
    var s := Reached(bounds, steps);
    StartOk(true, bounds);
    StartOk(false, bounds);
    WholeRun(Start(bounds), steps);
    ViewsAreGapless(bounds, steps, c);
    ReachedInv(true, bounds, steps);
    if s.clients[c].ended {
      var last := s.clients[c].last;
      TerminalIsUnique(true, s, last - 1);
      assert s.run.history[..last] == s.run.history;
    }
  }

  // ------------------------------------------------------------------ drains that are not clean

  /** An eviction leaves a gapless connection gapless exactly when no dequeue falls behind one of the drain. */
  lemma {:induction false} EvictionGaplessIff(
      run: RunState<nat>, run': RunState<nat>, e: Event, ss: Session, turns: seq<Turn>)
    requires Published(run, run', e) && ss.q in run.queues && Live(true, run, ss, run.queues[ss.q])
    requires |run.queues[ss.q]| >= run.bounds.queueSize
    ensures var ss' := ss.(wire := ss.wire + Grabbed(run.queues[ss.q], turns));
            Evicted(true, run', ss', run'.queues[ss.q]) <==> Clean(|run.queues[ss.q]|, turns)
  {
    hide Clean, Grabbed, Chain;
    var h, body, items := run.history, Body(ss.wire), run.queues[ss.q];
    var last, grabbed := EndOf(ss.base, body), Grabbed(items, turns);
    ChainAppend(true, h, ss.base, body, items);
    GrabbedGaplessIff(h, last, items, turns);
    GaplessIsIncreasing(h, last, items);
    GrabbedIncreases(h, last, items, turns);
    if grabbed != [] {
      NotAReset(false, h, last, grabbed);
    }
    BodyAppend(ss.wire, grabbed);
    ChainAppend(true, run'.history, ss.base, body, grabbed);
    ChainGrows(true, h, run'.history, ss.base, body);
    SameChain(h, run'.history, last, grabbed);
  }

  /** Events of `h` are gapless in a longer history exactly when they are in `h`. */
  lemma {:induction false} SameChain(h: seq<Event>, h': seq<Event>, last: nat, r: seq<Item>)
    requires h <= h' && Chain(false, h, last, r)
    ensures Chain(true, h, last, r) <==> Chain(true, h', last, r)
    decreases r
  {
    if r != [] {
      SameChain(h, h', r[0].event.id, r[1..]);
    }
  }

  predicate Shows(cl: Client, id: nat) {
    exists e :: e in cl.held && e.id == id
  }

  /** The only ways a view changes: a reset, or one event with a later id. */
  predicate Evolves(cl: Client, cl': Client) {
    || cl'.resets == cl.resets + 1
    || (cl'.resets == cl.resets && cl'.held == cl.held && cl'.last == cl.last)
    || (cl'.resets == cl.resets && cl'.last > cl.last && cl.held < cl'.held && |cl'.held| == |cl.held| + 1
        && cl'.held[|cl.held|].id == cl'.last)
  }

  lemma {:induction false} HearEvolves(run: RunState<nat>, cl: Client)
    requires ClientOk(false, run, cl) && Numbered(run.history, run.terminal)
    ensures Evolves(cl, Hear(cl))
  {
  }

  lemma {:induction false} ViewStep(s: System, step: Step, c: nat)
    requires Inv(false, s) && c in s.clients
    ensures c in Apply(s, step).clients && Evolves(s.clients[c], Apply(s, step).clients[c])
  {
    hide ClientOk, Numbered, LogLines, Tail, Emit, Finish, Backlog, Hear;
    if step == Receive(c) {
      HearEvolves(s.run, s.clients[c]);
    }
  }

  /** An event that a client has passed without showing it is never shown before the next reset. */
  lemma {:induction false} MissedForGood(s: System, steps: seq<Step>, c: nat, id: nat)
    requires Inv(false, s) && c in s.clients && id <= s.clients[c].last && !Shows(s.clients[c], id)
    ensures c in Exec(s, steps).clients
    ensures Exec(s, steps).clients[c].resets == s.clients[c].resets ==> !Shows(Exec(s, steps).clients[c], id)
    ensures Exec(s, steps).clients[c].resets >= s.clients[c].resets
    decreases steps
  {
    hide Inv, Apply;
    if steps != [] {
      var s1 := Apply(s, steps[0]);
      StepKeepsInv(false, s, steps[0]);
      ViewStep(s, steps[0], c);
      if s1.clients[c].resets == s.clients[c].resets {
        MissedForGood(s1, steps[1..], c, id);
      } else {
        ResetsGrow(s1, steps[1..], c);
      }
    }
  }

  lemma {:induction false} ResetsGrow(s: System, steps: seq<Step>, c: nat)
    requires Inv(false, s) && c in s.clients
    ensures c in Exec(s, steps).clients && Exec(s, steps).clients[c].resets >= s.clients[c].resets
    decreases steps
  {
    hide Inv, Apply;
    if steps != [] {
      StepKeepsInv(false, s, steps[0]);
      ViewStep(s, steps[0], c);
      ResetsGrow(Apply(s, steps[0]), steps[1..], c);
    }
  }

  const TINY := Bounds(10, 10, 2, 1)

  /** Three lines reach a client; the fourth evicts it while its reader is dequeuing. */
  function GapSteps(): seq<Step> {
    [Connect(0), EmitLine("a", map[]), Take(0), Receive(0), EmitLine("b", map[]), EmitLine("c", map[]),
     EmitLine("d", map[0 := [Drain, Reader]]), Receive(0)]
  }

  function Log(id: nat, line: string): Event {
    Event(id, Kind.Log, Text(line))
  }

  /** A run with one client, its queue holding `items`. */
  predicate Solo(s: System, h: seq<Event>, items: seq<Item>, cl: Client) {
    && s.run.bounds == TINY && s.run.history == h && s.run.sequence == |h| && s.run.terminal == None
    && s.run.queues == map[0 := items] && s.run.subscribers == {0} && s.clients == map[0 := cl]
    && cl.session.Some? && cl.session.value.q == 0
  }

  lemma {:induction false} SoloEmit(
      s: System, h: seq<Event>, items: seq<Item>, cl: Client, line: string, h': seq<Event>, items': seq<Item>)
    requires Solo(s, h, items, cl) && |items| < 2 && |line| <= 10
    requires h' == h + [Log(|h| + 1, line)] && items' == items + [Deliver(Log(|h| + 1, line))]
    ensures Solo(Apply(s, EmitLine(line, map[])), h', items', cl)
  {
    hide Tail;
    var s' := Apply(s, EmitLine(line, map[]));
    assert s'.run.queues == map[0 := items'];
    assert s'.clients == map[0 := cl];
  }

  lemma {:induction false} SoloTake(s: System, h: seq<Event>, e: Event, cl: Client, cl': Client)
    requires Solo(s, h, [Deliver(e)], cl) && e.kind == Kind.Log && cl.session.value.wire == []
    requires cl' == cl.(session := Some(cl.session.value.(wire := [Deliver(e)])))
    ensures Solo(Apply(s, Take(0)), h, [], cl')
  {
    assert [Deliver(e)][1..] == [];
    assert [] + [Deliver(e)] == [Deliver(e)];
  }

  lemma {:induction false} SoloReceive(s: System, h: seq<Event>, items: seq<Item>, cl: Client, e: Event, cl': Client)
    requires Solo(s, h, items, cl) && cl.session.value.wire == [Deliver(e)] && e.kind == Kind.Log && cl.held == []
    requires cl' == Client(e.id, [e], cl.ended, cl.resets, Some(Session(0, [], e.id, cl.session.value.closing)))
    ensures Solo(Apply(s, Receive(0)), h, items, cl')
  {
    assert [Deliver(e)][1..] == [];
    assert [] + [e] == [e];
  }

  /** The drain removes the first item, the reader the second. */
  lemma {:induction false} SoloEvict(s: System, h: seq<Event>, a: Item, b: Event, cl: Client, line: string)
    requires Solo(s, h, [a, Deliver(b)], cl) && cl.session.value.wire == [] && |line| <= 10
    ensures var s' := Apply(s, EmitLine(line, map[0 := [Drain, Reader]]));
            && s'.run.history == h + [Log(|h| + 1, line)] && 0 in s'.clients
            && s'.clients[0] == cl.(session := Some(cl.session.value.(wire := [Deliver(b)])))
  {
    hide Tail;
    var items, turns := [a, Deliver(b)], [Drain, Reader];
    assert items[1..] == [Deliver(b)] && turns[1..] == [Reader] && items[1..][1..] == [] && turns[1..][1..] == [];
    assert Grabbed(items[1..], turns[1..]) == [Deliver(b)] + Grabbed([], []);
    assert Grabbed(items, turns) == [Deliver(b)] && [] + [Deliver(b)] == [Deliver(b)];
  }

  lemma {:induction false} SoloStart()
    ensures Solo(Apply(Start(TINY), Connect(0)), [], [], Client(0, [], false, 0, Some(Session(0, [], 0, false))))
  {
  }

  /** The gapless view is not kept by a drain that is interleaved with a dequeue: the client shows a and c, not b. */
  lemma {:induction false} InterleavedDrainLosesAnEvent()
    ensures var s := Reached(TINY, GapSteps());
            && 0 in s.clients && s.clients[0].held == [Log(1, "a"), Log(3, "c")] && s.clients[0].resets == 0
            && s.run.history == [Log(1, "a"), Log(2, "b"), Log(3, "c"), Log(4, "d")]
            && !ShowsBlock(s.run.history, s.clients[0])
  {
    hide Apply, Solo;
    var t := GapSteps();
    var a, b, c := Log(1, "a"), Log(2, "b"), Log(3, "c");
    var c1 := Client(0, [], false, 0, Some(Session(0, [], 0, false)));
    var c3 := Client(0, [], false, 0, Some(Session(0, [Deliver(a)], 0, false)));
    var c4 := Client(1, [a], false, 0, Some(Session(0, [], 1, false)));
    var s1 := Apply(Start(TINY), t[0]);
    SoloStart();
    SoloEmit(s1, [], [], c1, "a", [a], [Deliver(a)]);
    var s2 := Apply(s1, t[1]);
    SoloTake(s2, [a], a, c1, c3);
    var s3 := Apply(s2, t[2]);
    SoloReceive(s3, [a], [], c3, a, c4);
    var s4 := Apply(s3, t[3]);
    SoloEmit(s4, [a], [], c4, "b", [a, b], [Deliver(b)]);
    var s5 := Apply(s4, t[4]);
    SoloEmit(s5, [a, b], [Deliver(b)], c4, "c", [a, b, c], [Deliver(b), Deliver(c)]);
    var s6 := Apply(s5, t[5]);
    SoloEvict(s6, [a, b, c], Deliver(b), c, c4, "d");
    GapTail(s6, [a, b, c], c4);
    GapExec(s6);
  }

  lemma {:induction false} GapTail(s6: System, h6: seq<Event>, c4: Client)
    requires h6 == [Log(1, "a"), Log(2, "b"), Log(3, "c")] && c4.held == [Log(1, "a")] && c4.session.Some?
    requires c4.resets == 0
    requires var s7 := Apply(s6, GapSteps()[6]);
             && s7.run.history == h6 + [Log(4, "d")] && 0 in s7.clients
             && s7.clients[0] == c4.(session := Some(c4.session.value.(wire := [Deliver(Log(3, "c"))])))
    ensures var s8 := Apply(Apply(s6, GapSteps()[6]), GapSteps()[7]);
            && 0 in s8.clients && s8.clients[0].held == [Log(1, "a"), Log(3, "c")] && s8.clients[0].resets == 0
            && s8.run.history == [Log(1, "a"), Log(2, "b"), Log(3, "c"), Log(4, "d")]
            && !ShowsBlock(s8.run.history, s8.clients[0])
  {
  }

  lemma {:induction false} GapExec(s6: System)
    requires var t := GapSteps();
             s6 == Apply(Apply(Apply(Apply(Apply(Apply(Start(TINY), t[0]), t[1]), t[2]), t[3]), t[4]), t[5])
    ensures Reached(TINY, GapSteps()) == Apply(Apply(s6, GapSteps()[6]), GapSteps()[7])
  {
    hide Apply, GapSteps;
    var t := GapSteps();
    assert |t| == 8 by { GapLength(); }
    var s0 := Start(TINY);
    var s1 := Apply(s0, t[0]);
    var s2 := Apply(s1, t[1]);
    var s3 := Apply(s2, t[2]);
    var s4 := Apply(s3, t[3]);
    var s5 := Apply(s4, t[4]);
    assert s6 == Apply(s5, t[5]);
    var s7 := Apply(s6, t[6]);
    assert t[0..] == t;
    ExecAt(s0, t, 0);
    ExecAt(s1, t, 1);
    ExecAt(s2, t, 2);
    ExecAt(s3, t, 3);
    ExecAt(s4, t, 4);
    ExecAt(s5, t, 5);
    ExecAt(s6, t, 6);
    ExecAt(s7, t, 7);
  }

  lemma {:induction false} ExecAt(s: System, t: seq<Step>, i: nat)
    requires i < |t|
    ensures Exec(s, t[i..]) == Exec(Apply(s, t[i]), t[i + 1..])
    ensures i + 1 == |t| ==> Exec(s, t[i..]) == Apply(s, t[i])
  {
  }

  lemma {:induction false} GapLength()
    ensures |GapSteps()| == 8
  {
  }
}
