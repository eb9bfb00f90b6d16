/** The correlator: which observation answers a stimulus, and what verdict follows. */
module Correlator {
  import opened Common
  import opened Sorting
  import opened Telemetry
  import opened Matching
  import Collector

  datatype Stimulus = Stimulus(
    fiveTuple: FiveTuple, timestamp: real, expectedEventType: string, payloadClass: string, detectionTarget: string,
    expectedFields: seq<string>)

  datatype Settings = Settings(windowS: real, skewS: real, requireGroundTruth: bool)

  predicate GoodSettings(cfg: Settings) {
    cfg.windowS >= 0.0 && cfg.skewS >= 0.0
  }

  predicate WithinWindow(stimulusTime: real, eventTime: real, windowS: real, skewS: real) {
    stimulusTime - skewS <= eventTime <= stimulusTime + windowS + skewS
  }

  predicate IsCandidate(cfg: Settings, rules: Rules, stimulus: Stimulus, e: TelemetryEvent) {
    && e.eventType == stimulus.expectedEventType
    && ObservationMatches(stimulus.fiveTuple, e.fiveTuple, rules)
    && WithinWindow(stimulus.timestamp, e.timestamp, cfg.windowS, cfg.skewS)
  }

  function MatchesIn(
      cfg: Settings, rules: Rules, stimulus: Stimulus, events: seq<TelemetryEvent>): seq<TelemetryEvent> {
    if events == [] then []
    else (if IsCandidate(cfg, rules, stimulus, events[0]) then [events[0]] else [])
         + MatchesIn(cfg, rules, stimulus, events[1..])
  }

  function Distance(e: TelemetryEvent, time: real): (d: real)
    ensures d >= 0.0
  {
    if e.timestamp >= time then e.timestamp - time else time - e.timestamp
  }

  predicate NotFarther(a: TelemetryEvent, b: TelemetryEvent, time: real) {
    Distance(a, time) <= Distance(b, time)
  }

  /** The order by distance from a time. */
  function ByDistance(time: real): (TelemetryEvent, TelemetryEvent) -> bool {
    (a: TelemetryEvent, b: TelemetryEvent) => NotFarther(a, b, time)
  }

  lemma {:induction false} ByDistanceIsOrder(time: real)
    ensures TotalOrder(ByDistance(time))
  {
  }

  function Candidates(
      cfg: Settings, rules: Rules, stimulus: Stimulus, events: seq<TelemetryEvent>): seq<TelemetryEvent> {
    Sort(MatchesIn(cfg, rules, stimulus, events), ByDistance(stimulus.timestamp))
  }

  function Correlate(
      cfg: Settings, rules: Rules, stimulus: Stimulus, events: seq<TelemetryEvent>): Option<TelemetryEvent> {
    var found := Candidates(cfg, rules, stimulus, events);
    if found == [] then None else Some(found[0])
  }

  // ------------------------------------------------------------------ candidates

  lemma {:induction false} MatchingAppend(
      cfg: Settings, rules: Rules, stimulus: Stimulus, a: seq<TelemetryEvent>, b: seq<TelemetryEvent>)
    ensures MatchesIn(cfg, rules, stimulus, a + b)
         == MatchesIn(cfg, rules, stimulus, a) + MatchesIn(cfg, rules, stimulus, b)
  {
    hide IsCandidate;
    if a == [] {
      assert a + b == b;
    } else {
      assert (a + b)[1..] == a[1..] + b;
      MatchingAppend(cfg, rules, stimulus, a[1..], b);
    }
  }

  lemma {:induction false} MatchingMember(
      cfg: Settings, rules: Rules, stimulus: Stimulus, events: seq<TelemetryEvent>, e: TelemetryEvent)
    ensures e in MatchesIn(cfg, rules, stimulus, events) <==> e in events && IsCandidate(cfg, rules, stimulus, e)
  {
    hide IsCandidate;
    if events != [] {
      MatchingMember(cfg, rules, stimulus, events[1..], e);
    }
  }

  /** The closest candidate is the first least one of the input's candidates. */
  lemma {:induction false} CorrelateIsBest(cfg: Settings, rules: Rules, stimulus: Stimulus, events: seq<TelemetryEvent>)
    ensures var m := MatchesIn(cfg, rules, stimulus, events);
            Correlate(cfg, rules, stimulus, events)
            == if m == [] then None else Some(Best(m, ByDistance(stimulus.timestamp)))
  {
    hide MatchesIn, ByDistance, Sort, Best;
    var m := MatchesIn(cfg, rules, stimulus, events);
    if m != [] {
      SortPutsBestFirst(m, ByDistance(stimulus.timestamp));
    }
  }

  /** The closer of two answers, the left one on ties. */
  function CloserOf(a: Option<TelemetryEvent>, b: Option<TelemetryEvent>, time: real): Option<TelemetryEvent> {
    if a.None? then b else if b.None? || NotFarther(a.value, b.value, time) then a else b
  }

  lemma {:induction false} CorrelateAppend(
      cfg: Settings, rules: Rules, stimulus: Stimulus, a: seq<TelemetryEvent>, b: seq<TelemetryEvent>)
    ensures Correlate(cfg, rules, stimulus, a + b) ==
            CloserOf(Correlate(cfg, rules, stimulus, a), Correlate(cfg, rules, stimulus, b), stimulus.timestamp)
  {
    hide Correlate, MatchesIn, NotFarther, Best;
    var le := ByDistance(stimulus.timestamp);
    var m, n := MatchesIn(cfg, rules, stimulus, a), MatchesIn(cfg, rules, stimulus, b);
    MatchingAppend(cfg, rules, stimulus, a, b);
    CorrelateIsBest(cfg, rules, stimulus, a);
    CorrelateIsBest(cfg, rules, stimulus, b);
    CorrelateIsBest(cfg, rules, stimulus, a + b);
    if m != [] && n != [] {
      ByDistanceIsOrder(stimulus.timestamp);
      BestOfAppend(m, n, le);
    } else {
      assert m + [] == m && [] + n == n;
    }
  }

  /**
    * The answer is a candidate from the input, no candidate is closer, and every equally close one comes
    * later in the input; there is no answer iff there is no candidate.
    */
  lemma {:induction false} NearestFirst(
      cfg: Settings, rules: Rules, stimulus: Stimulus, events: seq<TelemetryEvent>) returns (i: int)
    ensures -1 <= i < |events| && (i == -1 <==> Correlate(cfg, rules, stimulus, events).None?)
    ensures i >= 0 ==> Correlate(cfg, rules, stimulus, events) == Some(events[i])
                       && IsCandidate(cfg, rules, stimulus, events[i])
    ensures forall j | 0 <= j < |events| && IsCandidate(cfg, rules, stimulus, events[j]) ::
              i >= 0 && Distance(events[i], stimulus.timestamp) <= Distance(events[j], stimulus.timestamp)
              && (j < i ==> Distance(events[i], stimulus.timestamp) < Distance(events[j], stimulus.timestamp))
    decreases events
  {
    if events == [] {
      i := -1;
      NothingFound(cfg, rules, stimulus);
    } else {
      hide IsCandidate, Correlate, Distance;
      var e, rest := events[0], events[1..];
      var k := NearestFirst(cfg, rules, stimulus, rest);
      assert events == [e] + rest;
      assert forall j | 0 < j < |events| :: events[j] == rest[j - 1];
      CorrelateAppend(cfg, rules, stimulus, [e], rest);
      CorrelateOne(cfg, rules, stimulus, e);
      if IsCandidate(cfg, rules, stimulus, e) && (k == -1 || NotFarther(e, rest[k], stimulus.timestamp)) {
        i := 0;
      } else {
        i := if k == -1 then -1 else k + 1;
      }
    }
  }

  lemma {:induction false} NothingFound(cfg: Settings, rules: Rules, stimulus: Stimulus)
    ensures Correlate(cfg, rules, stimulus, []) == None
  {
    CorrelateIsBest(cfg, rules, stimulus, []);
  }

  lemma {:induction false} CorrelateOne(cfg: Settings, rules: Rules, stimulus: Stimulus, e: TelemetryEvent)
    ensures Correlate(cfg, rules, stimulus, [e]) == if IsCandidate(cfg, rules, stimulus, e) then Some(e) else None
  {
    hide IsCandidate;
    CorrelateIsBest(cfg, rules, stimulus, [e]);
    hide Correlate;
    assert [e][1..] == [];
  }

  /** The candidates are the matching events and no others, the nearer ones first. */
  lemma {:induction false} CandidatesAreSorted(
      cfg: Settings, rules: Rules, stimulus: Stimulus, events: seq<TelemetryEvent>)
    ensures var c := Candidates(cfg, rules, stimulus, events);
            && multiset(c) == multiset(MatchesIn(cfg, rules, stimulus, events))
            && forall i, j | 0 <= i < j < |c| :: NotFarther(c[i], c[j], stimulus.timestamp)
  {
    hide MatchesIn, Sort, NotFarther;
    ByDistanceIsOrder(stimulus.timestamp);
    SortSorts(MatchesIn(cfg, rules, stimulus, events), ByDistance(stimulus.timestamp));
    SortPermutes(MatchesIn(cfg, rules, stimulus, events), ByDistance(stimulus.timestamp));
  }

  // ------------------------------------------------------------------ the collector's query, and eviction

  /** The query for a stimulus' type, tuple and window. */
  function QueryFor(cfg: Settings, stimulus: Stimulus): Collector.Query {
    Collector.Query(Some(stimulus.expectedEventType), Some(stimulus.fiveTuple),
                    Some(stimulus.timestamp - cfg.skewS), Some(stimulus.timestamp + cfg.windowS + cfg.skewS))
  }

  lemma {:induction false} QueryIsMatching(cfg: Settings, rules: Rules, stimulus: Stimulus, events: seq<TelemetryEvent>)
    ensures Collector.Selected(QueryFor(cfg, stimulus), rules, events) == MatchesIn(cfg, rules, stimulus, events)
  {
    hide ObservationMatches;
    if events != [] {
      QueryIsMatching(cfg, rules, stimulus, events[1..]);
    }
  }

  lemma {:induction false} MatchingTwice(cfg: Settings, rules: Rules, stimulus: Stimulus, events: seq<TelemetryEvent>)
    ensures var m := MatchesIn(cfg, rules, stimulus, events); MatchesIn(cfg, rules, stimulus, m) == m
  {
    hide IsCandidate;
    if events != [] {
      MatchingTwice(cfg, rules, stimulus, events[1..]);
      var m := MatchesIn(cfg, rules, stimulus, events[1..]);
      if IsCandidate(cfg, rules, stimulus, events[0]) {
        assert ([events[0]] + m)[1..] == m;
      } else {
        assert [] + m == m;
      }
    }
  }

  /** Asking the collector for type, tuple and window first changes no answer. */
  lemma {:induction false} QueryChangesNothing(
      cfg: Settings, rules: Rules, stimulus: Stimulus, events: seq<TelemetryEvent>)
    ensures Correlate(cfg, rules, stimulus, Collector.Selected(QueryFor(cfg, stimulus), rules, events))
            == Correlate(cfg, rules, stimulus, events)
  {
    hide Sort, IsCandidate;
    QueryIsMatching(cfg, rules, stimulus, events);
    MatchingTwice(cfg, rules, stimulus, events);
  }

  /** Events as they arrive: receive times do not run backwards. */
  predicate Chronological(events: seq<TelemetryEvent>) {
    forall i, j | 0 <= i < j < |events| :: events[i].timestamp <= events[j].timestamp
  }

  /** The least distance a candidate no later than `latest` can have, when the window reaches back that far. */
  function LeastDistance(latest: real, time: real): real {
    if latest >= time then 0.0 else time - latest
  }

  /**
    * What a snapshot shows: its oldest event is from before the window, or its answer is strictly closer than any
    * event that is no later than its oldest one can be.
    */
  predicate Settled(cfg: Settings, stimulus: Stimulus, kept: seq<TelemetryEvent>, answer: Option<TelemetryEvent>)
    requires kept != []
  {
    var oldest := kept[0].timestamp;
    || oldest < stimulus.timestamp - cfg.skewS
    || (answer.Some? && Distance(answer.value, stimulus.timestamp) < LeastDistance(oldest, stimulus.timestamp))
  }

  /** Whatever arrived before the buffer's events, the answer is the buffer's. */
  ghost predicate SameForAnyPast(cfg: Settings, rules: Rules, stimulus: Stimulus, kept: seq<TelemetryEvent>) {
    forall lost: seq<TelemetryEvent> :: Chronological(lost + kept) ==>
      Correlate(cfg, rules, stimulus, lost + kept) == Correlate(cfg, rules, stimulus, kept)
  }

  lemma {:induction false} PastIsFarther(
      cfg: Settings, rules: Rules, stimulus: Stimulus, lost: seq<TelemetryEvent>, kept: seq<TelemetryEvent>)
    requires kept != [] && Chronological(lost + kept) && Correlate(cfg, rules, stimulus, lost).Some?
    ensures var e := Correlate(cfg, rules, stimulus, lost).value;
            && IsCandidate(cfg, rules, stimulus, e)
            && kept[0].timestamp >= stimulus.timestamp - cfg.skewS
            && Distance(e, stimulus.timestamp) >= LeastDistance(kept[0].timestamp, stimulus.timestamp)
  {
    hide Correlate, ObservationMatches;
    var i := NearestFirst(cfg, rules, stimulus, lost);
    assert (lost + kept)[i] == lost[i] && (lost + kept)[|lost|] == kept[0];
  }

  lemma {:induction false} SettledSuffices(
      cfg: Settings, rules: Rules, stimulus: Stimulus, lost: seq<TelemetryEvent>, kept: seq<TelemetryEvent>)
    requires kept != [] && Chronological(lost + kept)
    requires Settled(cfg, stimulus, kept, Correlate(cfg, rules, stimulus, kept))
    ensures Correlate(cfg, rules, stimulus, lost + kept) == Correlate(cfg, rules, stimulus, kept)
  {
    hide Correlate, Chronological, ObservationMatches;
    CorrelateAppend(cfg, rules, stimulus, lost, kept);
    if Correlate(cfg, rules, stimulus, lost).Some? {
      PastIsFarther(cfg, rules, stimulus, lost, kept);
    }
  }

  /** An event that could have been dropped and would have been the answer. */
  function Rival(
      stimulus: Stimulus, kept: seq<TelemetryEvent>, answer: Option<TelemetryEvent>, o: FiveTuple): TelemetryEvent
    requires kept != []
  {
    var oldest := kept[0].timestamp;
    TelemetryEvent(stimulus.expectedEventType, o, if oldest >= stimulus.timestamp then stimulus.timestamp else oldest,
                   map[], if answer.Some? then answer.value.raw + "x" else "")
  }

  lemma {:induction false} RivalWins(
      cfg: Settings, rules: Rules, stimulus: Stimulus, kept: seq<TelemetryEvent>, o: FiveTuple)
    requires GoodSettings(cfg) && kept != [] && ObservationMatches(stimulus.fiveTuple, o, rules)
    requires !Settled(cfg, stimulus, kept, Correlate(cfg, rules, stimulus, kept))
    ensures var answer := Correlate(cfg, rules, stimulus, kept);
            var lost := [Rival(stimulus, kept, answer, o)];
            Correlate(cfg, rules, stimulus, lost + kept) == Some(lost[0]) != answer
  {
    hide Correlate, ObservationMatches;
    var answer := Correlate(cfg, rules, stimulus, kept);
    var e := Rival(stimulus, kept, answer, o);
    CorrelateOne(cfg, rules, stimulus, e);
    CorrelateAppend(cfg, rules, stimulus, [e], kept);
    assert answer.Some? ==> |e.raw| > |answer.value.raw|;
  }

  lemma {:induction false} RivalIsEarlier(
      stimulus: Stimulus, kept: seq<TelemetryEvent>, answer: Option<TelemetryEvent>, o: FiveTuple)
    requires kept != [] && Chronological(kept)
    ensures Chronological([Rival(stimulus, kept, answer, o)] + kept)
  {
  }

  lemma {:induction false} UnobservableHasNoAnswer(
      cfg: Settings, rules: Rules, stimulus: Stimulus, events: seq<TelemetryEvent>)
    requires !Observable(stimulus.fiveTuple, rules)
    ensures Correlate(cfg, rules, stimulus, events) == None
  {
    hide Correlate;
    var i := NearestFirst(cfg, rules, stimulus, events);
  }

  /**
    * A snapshot of a collector that has dropped events answers for everything ever received, whatever was dropped,
    * iff it is settled (or the stimulus cannot be observed at all, having two endpoints that are not addresses).
    */
  lemma {:induction false} SnapshotSufficesIff(
      cfg: Settings, rules: Rules, stimulus: Stimulus, kept: seq<TelemetryEvent>, address: string)
    requires GoodSettings(cfg) && kept != [] && Chronological(kept) && rules.isAddress(address)
    ensures SameForAnyPast(cfg, rules, stimulus, kept) <==>
            || Settled(cfg, stimulus, kept, Correlate(cfg, rules, stimulus, kept))
            || !Observable(stimulus.fiveTuple, rules)
  {
    hide Correlate, Chronological, Settled, ObservationMatches, Observable, Rival;
    var answer := Correlate(cfg, rules, stimulus, kept);
    if !Observable(stimulus.fiveTuple, rules) {
      forall lost: seq<TelemetryEvent> ensures Correlate(cfg, rules, stimulus, lost) == None {
        UnobservableHasNoAnswer(cfg, rules, stimulus, lost);
      }
    } else if Settled(cfg, stimulus, kept, answer) {
      forall lost: seq<TelemetryEvent> | Chronological(lost + kept)
        ensures Correlate(cfg, rules, stimulus, lost + kept) == answer
      {
        SettledSuffices(cfg, rules, stimulus, lost, kept);
      }
    } else {
      ObservableIff(stimulus.fiveTuple, rules, address);
      var o: FiveTuple :| ObservationMatches(stimulus.fiveTuple, o, rules);
      var lost := [Rival(stimulus, kept, answer, o)];
      RivalWins(cfg, rules, stimulus, kept, o);
      RivalIsEarlier(stimulus, kept, answer, o);
      assert Chronological(lost + kept);
    }
  }

  // ------------------------------------------------------------------ an eviction that changes the answer

  const EVERYTHING := Rules((s: string) => s, (s: string) => true)
  const ANYONE := FiveTuple(Some("192.0.2.1"), None, None, None, None)
  const PROBE := Stimulus(ANYONE, 10.0, "RT_FLOW_SESSION_CREATE", "", "", [])
  const WIDE := Settings(10.0, 2.0, false)

  function Seen(time: real): TelemetryEvent {
    TelemetryEvent("RT_FLOW_SESSION_CREATE", ANYONE, time, map[], "")
  }

  /** A buffer of one keeps the later of two observations, although the earlier one is closer. */
  lemma {:induction false} EvictionChangesAnswer()
    ensures var history := [Seen(11.0), Seen(15.0)];
            && Chronological(history)
            && Correlate(WIDE, EVERYTHING, PROBE, history) == Some(Seen(11.0))
            && Correlate(WIDE, EVERYTHING, PROBE, Tail(history, 1)) == Some(Seen(15.0))
  {
    hide Correlate;
    var a, b := Seen(11.0), Seen(15.0);
    assert [a] + [b] == [a, b] && Tail([a, b], 1) == [b];
    CorrelateOne(WIDE, EVERYTHING, PROBE, a);
    CorrelateOne(WIDE, EVERYTHING, PROBE, b);
    CorrelateAppend(WIDE, EVERYTHING, PROBE, [a], [b]);
  }

  /** A narrower tuple or window adds no candidate. */
  lemma {:induction false} NarrowingIsMonotone(
      cfg: Settings, narrow: Settings, rules: Rules, stimulus: Stimulus, tuple: FiveTuple, e: TelemetryEvent)
    requires narrow.windowS <= cfg.windowS && narrow.skewS <= cfg.skewS && Refines(tuple, stimulus.fiveTuple, rules)
    requires IsCandidate(narrow, rules, stimulus.(fiveTuple := tuple), e)
    ensures IsCandidate(cfg, rules, stimulus, e)
  {
  }

  /** The window reaches from the skew before the stimulus to the skew behind its end, both ends included. */
  lemma {:induction false} WindowEnds(cfg: Settings, rules: Rules, stimulus: Stimulus, e: TelemetryEvent)
    requires e.eventType == stimulus.expectedEventType && ObservationMatches(stimulus.fiveTuple, e.fiveTuple, rules)
    requires GoodSettings(cfg)
    ensures IsCandidate(cfg, rules, stimulus, e) <==>
            if e.timestamp < stimulus.timestamp then Distance(e, stimulus.timestamp) <= cfg.skewS
            else Distance(e, stimulus.timestamp) <= cfg.windowS + cfg.skewS
  {
    hide ObservationMatches;
  }

  // ------------------------------------------------------------------ verdicts

  datatype Detection = Yes | No | Inconclusive

  datatype Note = CaptureOnly | CaptureAndTelemetry | NotCaptured | TelemetryOnly | Unavailable

  datatype Verdict = Verdict(
    detectionTarget: string, eventType: string, detected: Detection, logged: Detection, fieldsComplete: Detection,
    matchedEvent: Option<TelemetryEvent>, missingFields: seq<string>, note: Note)

  predicate Passed(v: Verdict) {
    v.detected.Yes? && v.logged.Yes? && v.fieldsComplete.Yes?
  }

  predicate HasField(e: TelemetryEvent, f: string) {
    f in e.fields && e.fields[f] != ""
  }

  /** The required fields that are absent or empty, in order. */
  function Missing(e: TelemetryEvent, required: seq<string>): (r: seq<string>)
    ensures forall f :: f in r <==> f in required && (f !in e.fields || e.fields[f] == "")
  {
    if required == [] then [] else
    (if HasField(e, required[0]) then [] else [required[0]]) + Missing(e, required[1..])
  }

  lemma {:induction false} NothingMissing(e: TelemetryEvent, required: seq<string>)
    ensures Missing(e, required) == [] <==> forall i | 0 <= i < |required| :: HasField(e, required[i])
  {
    var r := Missing(e, required);
    if r != [] {
      assert r[0] in r;
    }
  }

  /** A compatible tuple in the capture; None without a capture. */
  function SawGroundTruth(stimulus: Stimulus, groundTruth: Option<seq<FiveTuple>>, rules: Rules): (r: Option<bool>)
    ensures r.Some? <==> groundTruth.Some?
  {
    match groundTruth
    case None => None
    case Some(tuples) => Some(exists i :: 0 <= i < |tuples| && ObservationMatches(stimulus.fiveTuple, tuples[i], rules))
  }

  function Evaluate(
      cfg: Settings, rules: Rules, stimulus: Stimulus, events: seq<TelemetryEvent>,
      groundTruth: Option<seq<FiveTuple>>): Verdict {
    var matched := Correlate(cfg, rules, stimulus, events);
    var seen := SawGroundTruth(stimulus, groundTruth, rules);
    var inferred := matched.Some? && !cfg.requireGroundTruth;
    var missing := if matched.Some? then Missing(matched.value, stimulus.expectedFields) else [];
    Verdict(
      if stimulus.detectionTarget != "" then stimulus.detectionTarget else stimulus.payloadClass,
      stimulus.expectedEventType,
      if seen == Some(true) || (seen.None? && inferred) then Yes else Inconclusive,
      if matched.Some? then Yes else if seen == Some(false) then Inconclusive else No,
      if matched.None? then Inconclusive else if missing == [] then Yes else No,
      matched, missing,
      if seen == Some(true) then (if matched.Some? then CaptureAndTelemetry else CaptureOnly)
      else if seen == Some(false) then NotCaptured
      else if inferred then TelemetryOnly else Unavailable)
  }

  /** Some event answers the stimulus. */
  predicate AnyCandidate(cfg: Settings, rules: Rules, stimulus: Stimulus, events: seq<TelemetryEvent>) {
    exists i :: 0 <= i < |events| && IsCandidate(cfg, rules, stimulus, events[i])
  }

  /** No candidate is nearer than event `i`, and none in front of it is as near. */
  predicate NearestAt(cfg: Settings, rules: Rules, stimulus: Stimulus, events: seq<TelemetryEvent>, i: nat) {
    && i < |events| && IsCandidate(cfg, rules, stimulus, events[i])
    && forall j | 0 <= j < |events| && IsCandidate(cfg, rules, stimulus, events[j]) ::
         && Distance(events[i], stimulus.timestamp) <= Distance(events[j], stimulus.timestamp)
         && (j < i ==> Distance(events[i], stimulus.timestamp) < Distance(events[j], stimulus.timestamp))
  }

  /** The supplied capture holds a compatible tuple. */
  predicate Shown(stimulus: Stimulus, groundTruth: Option<seq<FiveTuple>>, rules: Rules) {
    groundTruth.Some? &&
    exists i :: 0 <= i < |groundTruth.value| && ObservationMatches(stimulus.fiveTuple, groundTruth.value[i], rules)
  }

  /** The nearest candidate, the first one among equally near ones. */
  predicate IsNearest(
      cfg: Settings, rules: Rules, stimulus: Stimulus, events: seq<TelemetryEvent>, e: TelemetryEvent) {
    exists i :: 0 <= i < |events| && NearestAt(cfg, rules, stimulus, events, i) && e == events[i]
  }

  /** What a verdict says of the evidence: whether an event was found, and whether a given capture shows the traffic. */
  predicate JudgesEvidence(v: Verdict, found: bool, supplied: bool, shown: bool, strict: bool) {
    && (v.logged.Yes? <==> found) && (v.logged.Inconclusive? <==> !found && supplied && !shown)
    && (v.detected.Yes? <==> shown || (found && !supplied && !strict)) && !v.detected.No?
    && (v.note.CaptureAndTelemetry? <==> shown && found) && (v.note.CaptureOnly? <==> shown && !found)
    && (v.note.NotCaptured? <==> supplied && !shown)
    && (v.note.TelemetryOnly? <==> found && !supplied && !strict)
  }

  /** What a verdict says of the fields of the event it found. */
  predicate JudgesFields(v: Verdict, required: seq<string>) {
    match v.matchedEvent
    case None => v.fieldsComplete.Inconclusive? && v.missingFields == []
    case Some(e) =>
      && (v.fieldsComplete.Yes? <==> forall f | f in required :: f in e.fields && e.fields[f] != "")
      && !v.fieldsComplete.Inconclusive?
      && v.missingFields == Filter(required, (f: string) => f !in e.fields || e.fields[f] == "")
  }

  predicate NamesTarget(v: Verdict, stimulus: Stimulus) {
    && v.eventType == stimulus.expectedEventType
    && (stimulus.detectionTarget != "" ==> v.detectionTarget == stimulus.detectionTarget)
    && (stimulus.detectionTarget == "" ==> v.detectionTarget == stimulus.payloadClass)
  }

  /** Every part of a verdict, by what events and capture hold. */
  predicate Judges(
      v: Verdict, cfg: Settings, rules: Rules, stimulus: Stimulus, events: seq<TelemetryEvent>,
      groundTruth: Option<seq<FiveTuple>>) {
    && JudgesEvidence(v, AnyCandidate(cfg, rules, stimulus, events), groundTruth.Some?,
                      Shown(stimulus, groundTruth, rules), cfg.requireGroundTruth)
    && (v.matchedEvent.Some? <==> AnyCandidate(cfg, rules, stimulus, events))
    && (v.matchedEvent.Some? ==> IsNearest(cfg, rules, stimulus, events, v.matchedEvent.value))
    && JudgesFields(v, stimulus.expectedFields) && NamesTarget(v, stimulus)
  }

  lemma {:induction false} CorrelateIsNearest(
      cfg: Settings, rules: Rules, stimulus: Stimulus, events: seq<TelemetryEvent>)
    ensures var m := Correlate(cfg, rules, stimulus, events);
            && (m.Some? <==> AnyCandidate(cfg, rules, stimulus, events))
            && (m.Some? ==> IsNearest(cfg, rules, stimulus, events, m.value))
  {
    hide IsCandidate, Correlate, Distance;
    var i := NearestFirst(cfg, rules, stimulus, events);
    if i >= 0 {
      assert NearestAt(cfg, rules, stimulus, events, i);
    }
  }

  lemma {:induction false} ShownIsSeen(stimulus: Stimulus, groundTruth: Option<seq<FiveTuple>>, rules: Rules)
    ensures SawGroundTruth(stimulus, groundTruth, rules) ==
            if groundTruth.None? then None else Some(Shown(stimulus, groundTruth, rules))
  {
    hide ObservationMatches;
  }

  lemma {:induction false} MissingJudged(e: TelemetryEvent, required: seq<string>)
    ensures Missing(e, required) == Filter(required, (f: string) => f !in e.fields || e.fields[f] == "")
    ensures Missing(e, required) == [] <==> forall f | f in required :: f in e.fields && e.fields[f] != ""
  {
    MissingIsFilter(e, required);
    if Missing(e, required) != [] {
      assert Missing(e, required)[0] in Missing(e, required);
    }
  }

  /** Each part of a verdict says what it should, also of one that does not pass. */
  lemma {:induction false} VerdictJudges(
      cfg: Settings, rules: Rules, stimulus: Stimulus, events: seq<TelemetryEvent>, groundTruth: Option<seq<FiveTuple>>)
    ensures Judges(Evaluate(cfg, rules, stimulus, events, groundTruth), cfg, rules, stimulus, events, groundTruth)
  {
    hide Correlate, AnyCandidate, IsNearest, HasField, Shown, SawGroundTruth, Missing, Filter;
    CorrelateIsNearest(cfg, rules, stimulus, events);
    ShownIsSeen(stimulus, groundTruth, rules);
    var matched := Correlate(cfg, rules, stimulus, events);
    if matched.Some? {
      MissingJudged(matched.value, stimulus.expectedFields);
    }
    ShownNeedsCapture(stimulus, groundTruth, rules);
  }

  lemma {:induction false} ShownNeedsCapture(
      stimulus: Stimulus, groundTruth: Option<seq<FiveTuple>>, rules: Rules)
    ensures Shown(stimulus, groundTruth, rules) ==> groundTruth.Some?
  {
  }

  lemma {:induction false} MissingIsFilter(e: TelemetryEvent, required: seq<string>)
    ensures Missing(e, required) == Filter(required, (f: string) => f !in e.fields || e.fields[f] == "")
  {
    if required != [] {
      MissingIsFilter(e, required[1..]);
    }
  }

  /** The verdict, decided step by step. */
  method EvaluateStimulus(
      cfg: Settings, rules: Rules, stimulus: Stimulus, events: seq<TelemetryEvent>, groundTruth: Option<seq<FiveTuple>>)
    returns (v: Verdict)
    ensures v == Evaluate(cfg, rules, stimulus, events, groundTruth)
    ensures Judges(v, cfg, rules, stimulus, events, groundTruth)
  {
    hide Correlate, ObservationMatches, Judges;
    VerdictJudges(cfg, rules, stimulus, events, groundTruth);
    var matched := Correlate(cfg, rules, stimulus, events);
    var seen := SawGroundTruth(stimulus, groundTruth, rules);
    var logged := if matched.Some? then Yes else No;
    var detected := Inconclusive;
    if seen == Some(true) {
      detected := Yes;
    } else if seen == None && matched.Some? && !cfg.requireGroundTruth {
      detected := Yes;
    }
    var missing: seq<string> := [];
    var complete := Inconclusive;
    if matched.Some? {
      missing := Missing(matched.value, stimulus.expectedFields);
      complete := if missing == [] then Yes else No;
    }
    var note := Unavailable;
    if seen == Some(true) {
      note := if matched.None? then CaptureOnly else CaptureAndTelemetry;
    } else if seen == Some(false) {
      note := NotCaptured;
      if matched.None? {
        logged := Inconclusive;
      }
    } else if matched.Some? && !cfg.requireGroundTruth {
      note := TelemetryOnly;
    }
    var target := if stimulus.detectionTarget != "" then stimulus.detectionTarget else stimulus.payloadClass;
    v := Verdict(target, stimulus.expectedEventType, detected, logged, complete, matched, missing, note);
  }

  function Matrix(
      cfg: Settings, rules: Rules, stimuli: seq<Stimulus>, events: seq<TelemetryEvent>,
      groundTruth: Option<seq<FiveTuple>>): (r: seq<Verdict>)
    ensures |r| == |stimuli|
    ensures forall i | 0 <= i < |stimuli| :: r[i] == Evaluate(cfg, rules, stimuli[i], events, groundTruth)
  {
    if stimuli == [] then []
    else [Evaluate(cfg, rules, stimuli[0], events, groundTruth)] + Matrix(cfg, rules, stimuli[1..], events, groundTruth)
  }

  predicate MatrixPassed(rows: seq<Verdict>) {
    rows != [] && forall i | 0 <= i < |rows| :: Passed(rows[i])
  }

  method BuildMatrix(
      cfg: Settings, rules: Rules, stimuli: seq<Stimulus>, events: seq<TelemetryEvent>,
      groundTruth: Option<seq<FiveTuple>>)
    returns (rows: seq<Verdict>)
    ensures rows == Matrix(cfg, rules, stimuli, events, groundTruth)
  {
    hide Evaluate;
    rows := [];
    for i := 0 to |stimuli|
      invariant |rows| == i && forall j | 0 <= j < i :: rows[j] == Evaluate(cfg, rules, stimuli[j], events, groundTruth)
    {
      var v := EvaluateStimulus(cfg, rules, stimuli[i], events, groundTruth);
      rows := rows + [v];
    }
  }

  /** Evidence apart from the event itself. */
  predicate SufficientEvidence(cfg: Settings, rules: Rules, stimulus: Stimulus, groundTruth: Option<seq<FiveTuple>>) {
    match groundTruth
    case None => !cfg.requireGroundTruth
    case Some(tuples) => exists i :: 0 <= i < |tuples| && ObservationMatches(stimulus.fiveTuple, tuples[i], rules)
  }

  /** A nearest candidate that carries every expected field, and sufficient evidence. */
  predicate Proven(
      cfg: Settings, rules: Rules, stimulus: Stimulus, events: seq<TelemetryEvent>,
      groundTruth: Option<seq<FiveTuple>>) {
    && Correlate(cfg, rules, stimulus, events).Some?
    && (forall i | 0 <= i < |stimulus.expectedFields| ::
          HasField(Correlate(cfg, rules, stimulus, events).value, stimulus.expectedFields[i]))
    && SufficientEvidence(cfg, rules, stimulus, groundTruth)
  }

  lemma {:induction false} PassedIffProven(
      cfg: Settings, rules: Rules, stimulus: Stimulus, events: seq<TelemetryEvent>, groundTruth: Option<seq<FiveTuple>>)
    ensures Passed(Evaluate(cfg, rules, stimulus, events, groundTruth))
       <==> Proven(cfg, rules, stimulus, events, groundTruth)
  {
    hide Correlate, ObservationMatches;
    var matched := Correlate(cfg, rules, stimulus, events);
    if matched.Some? {
      NothingMissing(matched.value, stimulus.expectedFields);
    }
  }

  /** The matrix passes iff there are stimuli and every one of them is proven. */
  lemma {:induction false} MatrixPassedIff(
      cfg: Settings, rules: Rules, stimuli: seq<Stimulus>, events: seq<TelemetryEvent>,
      groundTruth: Option<seq<FiveTuple>>)
    ensures MatrixPassed(Matrix(cfg, rules, stimuli, events, groundTruth)) <==>
            stimuli != [] && forall i | 0 <= i < |stimuli| :: Proven(cfg, rules, stimuli[i], events, groundTruth)
  {
    hide Evaluate, Proven;
    forall i | 0 <= i < |stimuli|
      ensures Passed(Evaluate(cfg, rules, stimuli[i], events, groundTruth))
         <==> Proven(cfg, rules, stimuli[i], events, groundTruth)
    {
      PassedIffProven(cfg, rules, stimuli[i], events, groundTruth);
    }
    hide Passed;
    var rows := Matrix(cfg, rules, stimuli, events, groundTruth);
    assert forall i | 0 <= i < |stimuli| :: Passed(rows[i]) <==> Proven(cfg, rules, stimuli[i], events, groundTruth);
  }

  lemma {:induction false} StrictImpliesLenientFor(
      cfg: Settings, rules: Rules, stimulus: Stimulus, events: seq<TelemetryEvent>, groundTruth: Option<seq<FiveTuple>>)
    requires cfg.requireGroundTruth && Proven(cfg, rules, stimulus, events, groundTruth)
    ensures Proven(cfg.(requireGroundTruth := false), rules, stimulus, events, groundTruth)
    ensures groundTruth.Some?
  {
    hide IsCandidate, ObservationMatches, Sort;
    SameMatching(cfg, rules, stimulus, events);
  }

  lemma {:induction false} SameMatching(cfg: Settings, rules: Rules, stimulus: Stimulus, events: seq<TelemetryEvent>)
    ensures MatchesIn(cfg, rules, stimulus, events)
         == MatchesIn(cfg.(requireGroundTruth := false), rules, stimulus, events)
  {
    hide ObservationMatches;
    if events != [] {
      SameMatching(cfg, rules, stimulus, events[1..]);
    }
  }

  /** Passing under strict evidence, which needs a capture, implies passing without it. */
  lemma {:induction false} StrictImpliesLenient(
      cfg: Settings, rules: Rules, stimuli: seq<Stimulus>, events: seq<TelemetryEvent>,
      groundTruth: Option<seq<FiveTuple>>)
    requires cfg.requireGroundTruth && MatrixPassed(Matrix(cfg, rules, stimuli, events, groundTruth))
    ensures MatrixPassed(Matrix(cfg.(requireGroundTruth := false), rules, stimuli, events, groundTruth))
    ensures groundTruth.Some?
  {
    hide Matrix, Proven;
    MatrixPassedIff(cfg, rules, stimuli, events, groundTruth);
    MatrixPassedIff(cfg.(requireGroundTruth := false), rules, stimuli, events, groundTruth);
    forall i | 0 <= i < |stimuli|
      ensures Proven(cfg.(requireGroundTruth := false), rules, stimuli[i], events, groundTruth) && groundTruth.Some?
    {
      StrictImpliesLenientFor(cfg, rules, stimuli[i], events, groundTruth);
    }
    assert Proven(cfg, rules, stimuli[0], events, groundTruth);
    StrictImpliesLenientFor(cfg, rules, stimuli[0], events, groundTruth);
  }

  lemma {:induction false} MoreEvidence(
      cfg: Settings, rules: Rules, stimulus: Stimulus, tuples: seq<FiveTuple>, more: seq<FiveTuple>)
    requires multiset(tuples) <= multiset(more) && SufficientEvidence(cfg, rules, stimulus, Some(tuples))
    ensures SufficientEvidence(cfg, rules, stimulus, Some(more))
  {
    hide ObservationMatches;
    var i :| 0 <= i < |tuples| && ObservationMatches(stimulus.fiveTuple, tuples[i], rules);
    assert tuples[i] in multiset(tuples);
    assert tuples[i] in more;
    var j :| 0 <= j < |more| && more[j] == tuples[i];
  }

  /** Adding tuples to a supplied capture never breaks a pass. */
  lemma {:induction false} CaptureIsMonotone(
      cfg: Settings, rules: Rules, stimuli: seq<Stimulus>, events: seq<TelemetryEvent>, tuples: seq<FiveTuple>,
      more: seq<FiveTuple>)
    requires multiset(tuples) <= multiset(more) && MatrixPassed(Matrix(cfg, rules, stimuli, events, Some(tuples)))
    ensures MatrixPassed(Matrix(cfg, rules, stimuli, events, Some(more)))
  {
    hide Matrix, SufficientEvidence, Correlate, HasField;
    MatrixPassedIff(cfg, rules, stimuli, events, Some(tuples));
    MatrixPassedIff(cfg, rules, stimuli, events, Some(more));
    forall i | 0 <= i < |stimuli| ensures Proven(cfg, rules, stimuli[i], events, Some(more)) {
      assert Proven(cfg, rules, stimuli[i], events, Some(tuples));
      MoreEvidence(cfg, rules, stimuli[i], tuples, more);
    }
  }
}
