/** Which runs the dashboard admits, when their processes are created, and how they end. */
module Admission {
  import opened Common

  datatype Param = Number(n: int) | Word(s: string)

  datatype Request = Request(workload: string, target: string, src: string, params: map<string, Param>, rootOk: bool)

  /** Where the worker thread of a run stands; `Closing` is on its way to `finish`. */
  datatype Phase = Admitted | Live | Closing(rc: int) | Over(rc: int)

  datatype RunRec = RunRec(
    id: string, requestId: Option<string>, request: Request, phase: Phase, stopRequested: bool, spawned: bool)

  datatype Action = Spawned(run: nat) | Stopped(run: nat) | Finished(run: nat)

  /** Every run ever admitted, oldest first; the registry `runs` in its own order; and what happened. */
  datatype Board = Board(maxRuns: nat, all: seq<RunRec>, runs: seq<nat>, log: seq<Action>)

  const SIGTERM := 15

  datatype Creation = Created | FileMissing | Broken

  /** Admission; the worker's steps (`Enter` is its block under the run's lock); and a stop from outside. */
  datatype Step =
    | Admit(id: string, requestId: Option<string>, request: Request)
    | StartFails(run: nat)
    | Enter(run: nat, creation: Creation)
    | Exit(run: nat, rc: int)
    | ReaderFails(run: nat, missing: bool)
    | Finish(run: nat)
    | Kill(run: nat)

  predicate Ended(r: RunRec) {
    r.phase.Over?
  }

  predicate Indexed(b: Board) {
    forall k | 0 <= k < |b.runs| :: b.runs[k] < |b.all|
  }

  // ------------------------------------------------------------------ admission

  datatype Response = Existing(run: nat) | New(run: nat) | Conflict | Busy

  predicate IsKey(requestId: Option<string>) {
    requestId.Some? && requestId.value != ""
  }

  /** The first registered run with that request id. */
  function Find(all: seq<RunRec>, runs: seq<nat>, requestId: Option<string>): (r: Option<nat>)
    requires forall k | 0 <= k < |runs| :: runs[k] < |all|
    ensures r.Some? ==> r.value in runs && all[r.value].requestId == requestId
    ensures r.None? ==> forall k | 0 <= k < |runs| :: all[runs[k]].requestId != requestId
  {
    if runs == [] then None
    else if all[runs[0]].requestId == requestId then Some(runs[0])
    else Find(all, runs[1..], requestId)
  }

  predicate AnyActive(all: seq<RunRec>, runs: seq<nat>)
    requires forall k | 0 <= k < |runs| :: runs[k] < |all|
  {
    exists k :: 0 <= k < |runs| && !Ended(all[runs[k]])
  }

  function Answer(b: Board, requestId: Option<string>, request: Request): Response
    requires Indexed(b)
  {
    var hit := if IsKey(requestId) then Find(b.all, b.runs, requestId) else None;
    if hit.Some? then (if b.all[hit.value].request == request then Existing(hit.value) else Conflict)
    else if AnyActive(b.all, b.runs) then Busy
    else New(|b.all|)
  }

  /** Assigning to a key of an ordered dictionary: in place if the key is there, else at the end. */
  function Put(all: seq<RunRec>, runs: seq<nat>, run: nat): (r: seq<nat>)
    requires run < |all| && forall k | 0 <= k < |runs| :: runs[k] < |all|
    ensures run in r && forall k | 0 <= k < |r| :: r[k] == run || r[k] in runs
    ensures |r| == |runs| || r == runs + [run]
  {
    if runs == [] then [run]
    else if all[runs[0]].id == all[run].id then [run] + runs[1..]
    else [runs[0]] + Put(all, runs[1..], run)
  }

  /** No run in front of position `k` has the id, and the one there has, or `k` is behind them all. */
  predicate IsPlaceOf(all: seq<RunRec>, runs: seq<nat>, id: string, k: nat)
    requires forall j | 0 <= j < |runs| :: runs[j] < |all|
  {
    && k <= |runs| && (forall j | 0 <= j < k :: all[runs[j]].id != id)
    && (k < |runs| ==> all[runs[k]].id == id)
  }

  /** The run takes the first place of its id and no other place changes; a new id goes behind all. */
  lemma {:induction false} PutTakesItsPlace(all: seq<RunRec>, runs: seq<nat>, run: nat, k: nat)
    requires run < |all| && forall j | 0 <= j < |runs| :: runs[j] < |all|
    requires IsPlaceOf(all, runs, all[run].id, k)
    ensures Put(all, runs, run) == if k < |runs| then runs[k := run] else runs + [run]
  {
    if runs != [] && all[runs[0]].id != all[run].id {
      var rest := runs[1..];
      assert forall j | 0 <= j < |rest| :: rest[j] == runs[j + 1];
      PutTakesItsPlace(all, rest, run, k - 1);
      assert k < |runs| ==> [runs[0]] + rest[k - 1 := run] == runs[k := run];
      assert [runs[0]] + (rest + [run]) == runs + [run];
    }
  }

  function AdmitRun(b: Board, id: string, requestId: Option<string>, request: Request): Board
    requires Indexed(b)
  {
    if Answer(b, requestId, request).New? then
      var all := b.all + [RunRec(id, requestId, request, Admitted, false, false)];
      b.(all := all, runs := Tail(Put(all, b.runs, |b.all|), b.maxRuns))
    else b
  }

  // ------------------------------------------------------------------ one run's worker, and a stop

  datatype Change = Change(run: RunRec, did: seq<Action>)

  function Move(r: RunRec, step: Step): Change
    requires !step.Admit?
  {
    match step
    case StartFails(_) => Change(if r.phase.Admitted? then r.(phase := Closing(1)) else r, [])
    case Enter(i, creation) =>
      if !r.phase.Admitted? then Change(r, [])
      else if r.stopRequested then Change(r.(phase := Closing(-SIGTERM)), [])
      else if creation.Created? then Change(r.(phase := Live, spawned := true), [Spawned(i)])
      else Change(r.(phase := Closing(if creation.FileMissing? then 127 else 1)), [])
    case Exit(_, rc) => Change(if r.phase.Live? then r.(phase := Closing(rc)) else r, [])
    case ReaderFails(_, missing) =>
      Change(if r.phase.Live? then r.(phase := Closing(if missing then 127 else 1)) else r, [])
    case Finish(i) => if r.phase.Closing? then Change(r.(phase := Over(r.phase.rc)), [Finished(i)]) else Change(r, [])
    case Kill(i) =>
      if Ended(r) || r.stopRequested then Change(r, []) else Change(r.(stopRequested := true), [Stopped(i)])
  }

  function Apply(b: Board, step: Step): Board
    requires Indexed(b)
  {
    if step.Admit? then AdmitRun(b, step.id, step.requestId, step.request)
    else if step.run >= |b.all| then b
    else
      var c := Move(b.all[step.run], step);
      b.(all := b.all[step.run := c.run], log := b.log + c.did)
  }

  // ------------------------------------------------------------------ the invariant

  /** Only the newest run may be un-ended, and the registry holds it. */
  predicate NewestOnly(b: Board) {
    && (forall i | 0 <= i < |b.all| - 1 :: Ended(b.all[i]))
    && (b.all != [] ==> |b.all| - 1 in b.runs)
  }

  predicate DistinctRuns(runs: seq<nat>) {
    forall j, k | 0 <= j < k < |runs| :: runs[j] != runs[k]
  }

  predicate SameKey(a: RunRec, b: RunRec) {
    IsKey(a.requestId) && a.requestId == b.requestId
  }

  predicate DistinctIds(all: seq<RunRec>, runs: seq<nat>)
    requires forall k | 0 <= k < |runs| :: runs[k] < |all|
  {
    forall j, k | 0 <= j < |runs| && 0 <= k < |runs| && j != k :: !SameKey(all[runs[j]], all[runs[k]])
  }

  /** What the log says about run `i` is what its record says. */
  predicate Tracks(r: RunRec, i: nat, log: seq<Action>) {
    && (r.spawned <==> Spawned(i) in log)
    && (r.stopRequested <==> Stopped(i) in log)
    && (Ended(r) <==> Finished(i) in log)
    && (r.phase.Admitted? ==> !r.spawned)
    && (r.phase.Live? ==> r.spawned)
    && (!r.spawned && !r.phase.Admitted? ==> UnspawnedCode(r.phase.rc, r.stopRequested))
  }

  /** The codes of a run that never had a process. */
  predicate UnspawnedCode(rc: int, stopRequested: bool) {
    rc == 1 || rc == 127 || (rc == -SIGTERM && stopRequested)
  }

  /** `a` may happen after `past`. */
  ghost predicate Allowed(past: seq<Action>, a: Action) {
    match a
    case Spawned(i) =>
      && Spawned(i) !in past && Stopped(i) !in past && Finished(i) !in past
      && (forall j: nat :: Spawned(j) in past ==> Finished(j) in past)
    case Stopped(i) => Finished(i) !in past && Stopped(i) !in past
    case Finished(i) => Finished(i) !in past
  }

  ghost predicate Lawful(log: seq<Action>) {
    forall k | 0 <= k < |log| :: Allowed(log[..k], log[k])
  }

  predicate Known(log: seq<Action>, n: nat) {
    forall k | 0 <= k < |log| :: log[k].run < n
  }

  ghost predicate Inv(b: Board) {
    && b.maxRuns > 0 && |b.runs| <= b.maxRuns
    && Indexed(b) && DistinctRuns(b.runs) && DistinctIds(b.all, b.runs)
    && NewestOnly(b)
    && Lawful(b.log) && Known(b.log, |b.all|)
    && (forall i | 0 <= i < |b.all| :: Tracks(b.all[i], i, b.log))
  }

  function Start(maxRuns: nat): Board {
    Board(maxRuns, [], [], [])
  }

  lemma {:induction false} InvIndexed(b: Board)
    requires Inv(b)
    ensures Indexed(b)
  {
  }

  // ------------------------------------------------------------------ admission keeps it

  lemma {:induction false} PutKeepsDistinct(all: seq<RunRec>, runs: seq<nat>, run: nat)
    requires run < |all| && (forall k | 0 <= k < |runs| :: runs[k] < |all|)
    requires DistinctRuns(runs) && run !in runs && DistinctIds(all, runs)
    requires forall k | 0 <= k < |runs| :: !SameKey(all[runs[k]], all[run]) && !SameKey(all[run], all[runs[k]])
    ensures DistinctRuns(Put(all, runs, run)) && DistinctIds(all, Put(all, runs, run))
  {
    hide SameKey;
    var r := Put(all, runs, run);
    if runs == [] {
    } else if all[runs[0]].id == all[run].id {
      assert forall k | 0 < k < |r| :: r[k] == runs[k];
    } else {
      var first, rest := runs[0], runs[1..];
      var more := Put(all, rest, run);
      assert forall k | 0 <= k < |rest| :: rest[k] == runs[k + 1];
      PutKeepsDistinct(all, rest, run);
      forall k | 0 <= k < |more|
        ensures more[k] != first && !SameKey(all[first], all[more[k]]) && !SameKey(all[more[k]], all[first])
      {
        if more[k] != run {
          var m :| 0 <= m < |rest| && rest[m] == more[k];
        }
      }
      ConsDistinct(all, first, more);
    }
  }

  lemma {:induction false} ConsDistinct(all: seq<RunRec>, first: nat, rest: seq<nat>)
    requires first < |all| && (forall k | 0 <= k < |rest| :: rest[k] < |all|)
    requires DistinctRuns(rest) && DistinctIds(all, rest)
    requires forall k | 0 <= k < |rest| ::
               rest[k] != first && !SameKey(all[first], all[rest[k]]) && !SameKey(all[rest[k]], all[first])
    ensures DistinctRuns([first] + rest) && DistinctIds(all, [first] + rest)
  {
  }

  lemma {:induction false} TailKeepsDistinct(all: seq<RunRec>, runs: seq<nat>, n: nat)
    requires (forall k | 0 <= k < |runs| :: runs[k] < |all|) && DistinctRuns(runs) && DistinctIds(all, runs)
    ensures var t := Tail(runs, n);
            && (forall k | 0 <= k < |t| :: t[k] < |all|) && DistinctRuns(t) && DistinctIds(all, t)
  {
  }

  /** An empty request id is none at all. */
  lemma {:induction false} EmptyKeyIsNone(b: Board, request: Request)
    requires Indexed(b)
    ensures Answer(b, Some(""), request) == Answer(b, None, request)
    ensures !Answer(b, None, request).Existing? && !Answer(b, None, request).Conflict?
  {
  }

  /** A run is admitted only when every admitted run, registered or not, has ended. */
  lemma {:induction false} NewMeansIdle(b: Board, requestId: Option<string>, request: Request)
    requires Indexed(b) && NewestOnly(b) && Answer(b, requestId, request).New?
    ensures forall i | 0 <= i < |b.all| :: Ended(b.all[i])
    ensures IsKey(requestId) ==> forall k | 0 <= k < |b.runs| :: b.all[b.runs[k]].requestId != requestId
  {
  }

  predicate RunsOk(all: seq<RunRec>, runs: seq<nat>) {
    (forall k | 0 <= k < |runs| :: runs[k] < |all|) && DistinctRuns(runs) && DistinctIds(all, runs)
  }

  /** Run `run` is not among `runs`, and shares its request id with none of them. */
  predicate Fits(all: seq<RunRec>, runs: seq<nat>, run: nat) {
    run < |all| && forall k | 0 <= k < |runs| ::
      && runs[k] < |all| && runs[k] != run
      && !SameKey(all[runs[k]], all[run]) && !SameKey(all[run], all[runs[k]])
  }

  lemma {:induction false} NewFits(b: Board, r: RunRec)
    requires Indexed(b) && NewestOnly(b) && RunsOk(b.all, b.runs) && Answer(b, r.requestId, r.request).New?
    ensures RunsOk(b.all + [r], b.runs) && Fits(b.all + [r], b.runs, |b.all|)
  {
    NewMeansIdle(b, r.requestId, r.request);
  }

  /** The registry after an admission, with the new run in it. */
  lemma {:induction false} AdmitRegistry(all: seq<RunRec>, runs: seq<nat>, run: nat, maxRuns: nat)
    requires RunsOk(all, runs) && Fits(all, runs, run) && |runs| <= maxRuns && 0 < maxRuns
    ensures var more := Tail(Put(all, runs, run), maxRuns); RunsOk(all, more) && run in more
  {
    hide SameKey, Put, Tail, DistinctIds, DistinctRuns;
    assert run !in runs;
    PutKeepsDistinct(all, runs, run);
    PutSurvives(all, runs, run, maxRuns);
    TailKeepsDistinct(all, Put(all, runs, run), maxRuns);
  }

  lemma {:induction false} PutSurvives(all: seq<RunRec>, runs: seq<nat>, run: nat, n: nat)
    requires run < |all| && (forall k | 0 <= k < |runs| :: runs[k] < |all|) && 0 < n && |runs| <= n
    ensures run in Tail(Put(all, runs, run), n)
  {
  }

  lemma {:induction false} AllTrackAfterAdmit(b: Board, r: RunRec)
    requires Known(b.log, |b.all|) && r.phase.Admitted? && !r.stopRequested && !r.spawned
    requires forall i | 0 <= i < |b.all| :: Tracks(b.all[i], i, b.log)
    ensures var all := b.all + [r];
            Known(b.log, |all|) && forall i | 0 <= i < |all| :: Tracks(all[i], i, b.log)
  {
  }

  lemma {:induction false} InvParts(b: Board)
    requires Inv(b)
    ensures b.maxRuns > 0 && |b.runs| <= b.maxRuns && Indexed(b) && DistinctRuns(b.runs) && DistinctIds(b.all, b.runs)
    ensures RunsOk(b.all, b.runs) && NewestOnly(b) && Lawful(b.log) && Known(b.log, |b.all|)
    ensures forall i | 0 <= i < |b.all| :: Tracks(b.all[i], i, b.log)
  {
  }

  lemma {:induction false} AdmitNewKeepsInv(b: Board, r: RunRec)
    requires Inv(b) && Answer(b, r.requestId, r.request).New?
    requires r.phase.Admitted? && !r.stopRequested && !r.spawned
    ensures var all := b.all + [r];
            && (forall k | 0 <= k < |b.runs| :: b.runs[k] < |all|)
            && Inv(b.(all := all, runs := Tail(Put(all, b.runs, |b.all|), b.maxRuns)))
  {
    hide Inv, Lawful, Put, Tail, Answer, Tracks, Known, RunsOk, Fits, NewestOnly, Ended;
    var all := b.all + [r];
    InvParts(b);
    NewMeansIdle(b, r.requestId, r.request);
    NewFits(b, r);
    AllTrackAfterAdmit(b, r);
    AdmitRegistry(all, b.runs, |b.all|, b.maxRuns);
    InvAfterAdmit(b, r, Tail(Put(all, b.runs, |b.all|), b.maxRuns));
  }

  lemma {:induction false} AdmitKeepsInv(b: Board, id: string, requestId: Option<string>, request: Request)
    requires Inv(b)
    ensures Inv(AdmitRun(b, id, requestId, request))
  {
    InvParts(b);
    hide Inv, Answer, Put, Tail;
    if Answer(b, requestId, request).New? {
      AdmitNewKeepsInv(b, RunRec(id, requestId, request, Admitted, false, false));
    }
  }

  lemma {:induction false} InvAfterAdmit(b: Board, r: RunRec, runs: seq<nat>)
    requires b.maxRuns > 0 && |runs| <= b.maxRuns && Lawful(b.log) && forall i | 0 <= i < |b.all| :: Ended(b.all[i])
    requires var all := b.all + [r];
             && RunsOk(all, runs) && |b.all| in runs && Known(b.log, |all|)
             && forall i | 0 <= i < |all| :: Tracks(all[i], i, b.log)
    ensures Inv(b.(all := b.all + [r], runs := runs))
  {
  }

  // ------------------------------------------------------------------ the worker's steps keep it

  lemma {:induction false} MoveTracks(r: RunRec, i: nat, step: Step, log: seq<Action>)
    requires Tracks(r, i, log) && !step.Admit? && step.run == i
    ensures var c := Move(r, step); Tracks(c.run, i, log + c.did)
    ensures var c := Move(r, step); c.run.id == r.id && c.run.requestId == r.requestId && c.run.request == r.request
    ensures var c := Move(r, step); Ended(r) ==> c == Change(r, [])
    ensures var c := Move(r, step); c.did == [] || (|c.did| == 1 && c.did[0].run == i)
  {
  }

  lemma {:induction false} OthersTrack(r: RunRec, j: nat, log: seq<Action>, did: seq<Action>)
    requires Tracks(r, j, log) && forall k | 0 <= k < |did| :: did[k].run != j
    ensures Tracks(r, j, log + did)
  {
  }

  /** What a step does is allowed by what happened before. */
  lemma {:induction false} MoveIsAllowed(b: Board, step: Step)
    requires Inv(b) && !step.Admit? && step.run < |b.all|
    ensures var did := Move(b.all[step.run], step).did; did != [] ==> Allowed(b.log, did[0])
  {
    hide DistinctIds, DistinctRuns, Lawful, UnspawnedCode;
    var r, i := b.all[step.run], step.run;
    assert Tracks(r, i, b.log);
    if step.Enter? && Move(r, step).did != [] {
      assert !Ended(r) && i == |b.all| - 1;
      forall j: nat | Spawned(j) in b.log ensures Finished(j) in b.log {
        var k :| 0 <= k < |b.log| && b.log[k] == Spawned(j);
        assert b.log[k].run == j < |b.all|;
        assert Tracks(b.all[j], j, b.log);
      }
    }
  }

  lemma {:induction false} LawfulAppend(log: seq<Action>, did: seq<Action>, n: nat)
    requires Lawful(log) && Known(log, n)
    requires did == [] || (|did| == 1 && did[0].run < n && Allowed(log, did[0]))
    ensures Lawful(log + did) && Known(log + did, n)
  {
    var all := log + did;
    forall k | 0 <= k < |all| ensures Allowed(all[..k], all[k]) {
      assert all[..k] == if k < |log| then log[..k] else log;
    }
  }

  /** Replacing a run by one with the same request id, or an ended one by itself, disturbs no other part. */
  lemma {:induction false} RegistryAfterMove(b: Board, i: nat, r: RunRec, log: seq<Action>)
    requires Indexed(b) && DistinctIds(b.all, b.runs) && NewestOnly(b) && i < |b.all|
    requires r.requestId == b.all[i].requestId && (Ended(b.all[i]) ==> r == b.all[i])
    ensures var b' := b.(all := b.all[i := r], log := log);
            Indexed(b') && DistinctIds(b'.all, b'.runs) && NewestOnly(b')
  {
    var all := b.all[i := r];
    assert forall k | 0 <= k < |b.runs| :: all[b.runs[k]].requestId == b.all[b.runs[k]].requestId;
  }

  lemma {:induction false} AllTrackAfterMove(b: Board, i: nat, r: RunRec, did: seq<Action>)
    requires i < |b.all| && Tracks(r, i, b.log + did) && forall k | 0 <= k < |did| :: did[k].run == i
    requires forall j | 0 <= j < |b.all| :: Tracks(b.all[j], j, b.log)
    ensures var all := b.all[i := r]; forall j | 0 <= j < |all| :: Tracks(all[j], j, b.log + did)
  {
    hide Tracks;
    var all := b.all[i := r];
    forall j | 0 <= j < |all| ensures Tracks(all[j], j, b.log + did) {
      if j != i {
        OthersTrack(b.all[j], j, b.log, did);
      }
    }
  }

  lemma {:induction false} MoveKeepsInv(b: Board, step: Step)
    requires Inv(b) && !step.Admit? && step.run < |b.all|
    ensures Inv(Apply(b, step))
  {
    hide Move, Lawful, Known, Allowed, Tracks, Indexed, DistinctIds, DistinctRuns, NewestOnly;
    InvParts(b);
    var i, c := step.run, Move(b.all[step.run], step);
    MoveTracks(b.all[i], i, step, b.log);
    MoveIsAllowed(b, step);
    LawfulAppend(b.log, c.did, |b.all|);
    AllTrackAfterMove(b, i, c.run, c.did);
    RegistryAfterMove(b, i, c.run, b.log + c.did);
  }

  lemma {:induction false} StepKeepsInv(b: Board, step: Step)
    requires Inv(b)
    ensures Inv(Apply(b, step))
  {
    hide Inv, Move, AdmitRun;
    if step.Admit? {
      AdmitKeepsInv(b, step.id, step.requestId, step.request);
    } else if step.run < |b.all| {
      MoveKeepsInv(b, step);
    }
  }
}
