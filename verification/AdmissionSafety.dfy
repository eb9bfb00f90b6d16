/** What holds of every run of the dashboard's admission and worker protocol, whatever the schedule. */
module AdmissionSafety {
  import opened Common
  import opened Admission

  /** The board after a schedule. */
  ghost function Exec(b: Board, steps: seq<Step>): (r: Board)
    requires Inv(b)
    decreases |steps|
  {
    if steps == [] then b else
    StepKeepsInv(b, steps[0]);
    Exec(Apply(b, steps[0]), steps[1..])
  }

  lemma {:induction false} ExecKeepsInv(b: Board, steps: seq<Step>)
    requires Inv(b)
    ensures Inv(Exec(b, steps))
    decreases |steps|
  {
    hide Inv, Apply;
    if steps != [] {
      InvIndexed(b);
      StepKeepsInv(b, steps[0]);
      ExecKeepsInv(Apply(b, steps[0]), steps[1..]);
    }
  }

  lemma {:induction false} ExecAppend(b: Board, x: seq<Step>, y: seq<Step>)
    requires Inv(b)
    ensures Inv(Exec(b, x)) && Exec(b, x + y) == Exec(Exec(b, x), y)
    decreases |x|
  {
    hide Inv, Apply;
    if x == [] {
      assert x + y == y;
    } else {
      InvIndexed(b);
      StepKeepsInv(b, x[0]);
      ExecAppend(Apply(b, x[0]), x[1..], y);
      assert (x + y)[0] == x[0] && (x + y)[1..] == x[1..] + y;
    }
  }

  lemma {:induction false} StartIsInv(maxRuns: nat)
    requires maxRuns > 0
    ensures Inv(Start(maxRuns))
  {
  }

  // ------------------------------------------------------------------ at most one active run

  /** Counting also runs dropped from the registry, at most one is un-ended: the newest, and it is registered. */
  lemma {:induction false} AtMostOneActive(maxRuns: nat, steps: seq<Step>, i: nat, j: nat)
    requires maxRuns > 0
    requires (StartIsInv(maxRuns); var b := Exec(Start(maxRuns), steps);
              i < |b.all| && j < |b.all| && !Ended(b.all[i]) && !Ended(b.all[j]))
    ensures i == j
    ensures (StartIsInv(maxRuns); var b := Exec(Start(maxRuns), steps); i == |b.all| - 1 && i in b.runs)
  {
    hide Exec;
    StartIsInv(maxRuns);
    ExecKeepsInv(Start(maxRuns), steps);
  }

  /** No step drops an un-ended run from the registry. */
  lemma {:induction false} EvictionSparesActive(b: Board, step: Step, k: nat)
    requires Inv(b) && k in b.runs && k !in Apply(b, step).runs
    ensures k < |b.all| && Ended(b.all[k])
  {
    hide Answer, Move;
    var j :| 0 <= j < |b.runs| && b.runs[j] == k;
    assert step.Admit? && Answer(b, step.requestId, step.request).New?;
    NewMeansIdle(b, step.requestId, step.request);
  }

  // ------------------------------------------------------------------ retries

  predicate Holder(b: Board, k: nat, requestId: Option<string>)
    requires Indexed(b)
  {
    k in b.runs && k < |b.all| && IsKey(requestId) && b.all[k].requestId == requestId
  }

  /** A request id has at most one registered holder; a request is admitted iff it has none and every run has ended. */
  lemma {:induction false} AnswerIs(b: Board, requestId: Option<string>, request: Request, k: nat)
    requires Inv(b)
    ensures Holder(b, k, requestId) ==>
              Answer(b, requestId, request) == if b.all[k].request == request then Existing(k) else Conflict
    ensures Answer(b, requestId, request).New? <==>
              (forall i | 0 <= i < |b.all| :: Ended(b.all[i])) && (forall m: nat :: !Holder(b, m, requestId))
    ensures Answer(b, requestId, request) == Existing(k) <==> Holder(b, k, requestId) && b.all[k].request == request
  {
    hide Lawful, Known, Tracks;
    if Holder(b, k, requestId) {
      HolderIsFound(b, k, requestId);
    }
    if IsKey(requestId) && Find(b.all, b.runs, requestId).None? {
      forall m: nat ensures !Holder(b, m, requestId) {
        if m in b.runs {
          var j :| 0 <= j < |b.runs| && b.runs[j] == m;
        }
      }
    }
    if IsKey(requestId) && Find(b.all, b.runs, requestId).Some? {
      assert Holder(b, Find(b.all, b.runs, requestId).value, requestId) by {
        var m := Find(b.all, b.runs, requestId).value;
        var j :| 0 <= j < |b.runs| && b.runs[j] == m;
      }
    }
    if Answer(b, requestId, request).New? {
      NewMeansIdle(b, requestId, request);
    }
  }

  lemma {:induction false} HolderIsFound(b: Board, k: nat, requestId: Option<string>)
    requires Indexed(b) && DistinctIds(b.all, b.runs) && Holder(b, k, requestId)
    ensures Find(b.all, b.runs, requestId) == Some(k)
  {
  }

  predicate SameRequest(a: RunRec, b: RunRec) {
    a.id == b.id && a.requestId == b.requestId && a.request == b.request
  }

  lemma {:induction false} StepKeepsRequests(b: Board, step: Step)
    requires Inv(b)
    ensures var b' := Apply(b, step);
            |b.all| <= |b'.all| && forall i | 0 <= i < |b.all| :: SameRequest(b.all[i], b'.all[i])
  {
    hide Answer, Put, Tail;
    if !step.Admit? && step.run < |b.all| {
      assert Tracks(b.all[step.run], step.run, b.log);
      MoveTracks(b.all[step.run], step.run, step, b.log);
      hide Move, Tracks;
    }
  }

  lemma {:induction false} ExecKeepsRequests(b: Board, steps: seq<Step>)
    requires Inv(b)
    ensures var b' := Exec(b, steps);
            |b.all| <= |b'.all| && forall i | 0 <= i < |b.all| :: SameRequest(b.all[i], b'.all[i])
    decreases |steps|
  {
    hide Inv, Apply;
    if steps != [] {
      InvIndexed(b);
      StepKeepsRequests(b, steps[0]);
      StepKeepsInv(b, steps[0]);
      ExecKeepsRequests(Apply(b, steps[0]), steps[1..]);
    }
  }

  /** However late, a retry is answered with the run of its admission, starting nothing, iff it is still registered. */
  lemma {:induction false} RetryReturnsSameRun(
      b: Board, id: string, requestId: Option<string>, request: Request, steps: seq<Step>, id2: string)
    requires Inv(b) && IsKey(requestId) && Answer(b, requestId, request).New?
    ensures (StepKeepsInv(b, Admit(id, requestId, request));
             var b' := Exec(AdmitRun(b, id, requestId, request), steps);
             Indexed(b')
             && (|b.all| in b'.runs <==> Answer(b', requestId, request) == Existing(|b.all|))
             && (|b.all| in b'.runs ==> AdmitRun(b', id2, requestId, request) == b'))
  {
    StepKeepsInv(b, Admit(id, requestId, request));
    var b1 := AdmitRun(b, id, requestId, request);
    ExecKeepsInv(b1, steps);
    ExecKeepsRequests(b1, steps);
    assert SameRequest(b1.all[|b.all|], Exec(b1, steps).all[|b.all|]);
    hide Answer, Exec, Inv;
    AnswerIs(Exec(b1, steps), requestId, request, |b.all|);
    assert Indexed(Exec(b1, steps)) by { InvIndexed(Exec(b1, steps)); }
  }

  // ------------------------------------------------------------------ what the registry holds

  predicate FreshIds(all: seq<RunRec>) {
    forall i, j | 0 <= i < j < |all| :: all[i].id != all[j].id
  }

  /** The registry is the newest runs, oldest first. */
  predicate HoldsNewest(b: Board) {
    && |b.runs| == (if |b.all| <= b.maxRuns then |b.all| else b.maxRuns)
    && forall k | 0 <= k < |b.runs| :: b.runs[k] == |b.all| - |b.runs| + k
  }

  lemma {:induction false} FreshAppends(all: seq<RunRec>, runs: seq<nat>, run: nat)
    requires run < |all| && forall k | 0 <= k < |runs| :: runs[k] < |all| && all[runs[k]].id != all[run].id
    ensures Put(all, runs, run) == runs + [run]
  {
    if runs != [] {
      FreshAppends(all, runs[1..], run);
    }
  }

  lemma {:induction false} AdmitHoldsNewest(b: Board, step: Step)
    requires Indexed(b) && HoldsNewest(b) && FreshIds(Apply(b, step).all)
    ensures HoldsNewest(Apply(b, step))
  {
    hide Answer, Move, Put;
    if step.Admit? && Answer(b, step.requestId, step.request).New? {
      var all, run := Apply(b, step).all, |b.all|;
      forall k | 0 <= k < |b.runs| ensures all[b.runs[k]].id != all[run].id {
        assert b.runs[k] < run < |all|;
      }
      FreshAppends(all, b.runs, run);
      NewestTail(b.runs, run, b.maxRuns);
      hide FreshIds;
    }
  }

  lemma {:induction false} NewestTail(runs: seq<nat>, run: nat, maxRuns: nat)
    requires |runs| == if run <= maxRuns then run else maxRuns
    requires forall k | 0 <= k < |runs| :: runs[k] == run - |runs| + k
    ensures var t := Tail(runs + [run], maxRuns);
            && |t| == (if run + 1 <= maxRuns then run + 1 else maxRuns)
            && forall k | 0 <= k < |t| :: t[k] == run + 1 - |t| + k
  {
  }

  /** As long as run ids do not collide, the registry is exactly the last `maxRuns` admitted runs. */
  lemma {:induction false} RegistryIsNewest(b: Board, steps: seq<Step>)
    requires Inv(b) && HoldsNewest(b) && FreshIds(Exec(b, steps).all)
    ensures HoldsNewest(Exec(b, steps))
    decreases |steps|
  {
    hide Inv, Apply, HoldsNewest;
    if steps != [] {
      InvIndexed(b);
      var b' := Apply(b, steps[0]);
      StepKeepsInv(b, steps[0]);
      ExecKeepsRequests(b', steps[1..]);
      FreshBefore(b'.all, Exec(b', steps[1..]).all);
      AdmitHoldsNewest(b, steps[0]);
      RegistryIsNewest(b', steps[1..]);
    }
  }

  lemma {:induction false} FreshBefore(a: seq<RunRec>, b: seq<RunRec>)
    requires |a| <= |b| && FreshIds(b) && forall i | 0 <= i < |a| :: SameRequest(a[i], b[i])
    ensures FreshIds(a)
  {
  }

  // ------------------------------------------------------------------ stop and spawn

  /** The order of what happens, over every schedule. */
  lemma {:induction false} SpawnProtocol(maxRuns: nat, steps: seq<Step>, a: nat, c: nat, i: nat, j: nat)
    requires maxRuns > 0
    requires (StartIsInv(maxRuns); a < c < |Exec(Start(maxRuns), steps).log|)
    ensures (StartIsInv(maxRuns); var log := Exec(Start(maxRuns), steps).log;
             && (log[a] == Spawned(i) ==> log[c] != Spawned(i))
             && (log[a] == Stopped(i) ==> log[c] != Spawned(i))
             && (log[a] == Finished(i) ==> log[c] !in {Spawned(i), Stopped(i), Finished(i)})
             && (log[a] == Spawned(i) && log[c] == Spawned(j) ==> exists m :: a < m < c && log[m] == Finished(i)))
  {
    hide Exec;
    StartIsInv(maxRuns);
    ExecKeepsInv(Start(maxRuns), steps);
    var log := Exec(Start(maxRuns), steps).log;
    LawfulOrder(log, a, c, i, j);
  }

  lemma {:induction false} LawfulOrder(log: seq<Action>, a: nat, c: nat, i: nat, j: nat)
    requires Lawful(log) && a < c < |log|
    ensures log[a] == Spawned(i) ==> log[c] != Spawned(i)
    ensures log[a] == Stopped(i) ==> log[c] != Spawned(i)
    ensures log[a] == Finished(i) ==> log[c] !in {Spawned(i), Stopped(i), Finished(i)}
    ensures log[a] == Spawned(i) && log[c] == Spawned(j) ==> exists m :: a < m < c && log[m] == Finished(i)
  {
  }

  // ------------------------------------------------------------------ every worker finishes

  function Rank(p: Phase): nat {
    match p case Admitted => 3 case Live => 2 case Closing(_) => 1 case Over(_) => 0
  }

  /** The rank from which a worker's step gets away; 0 for the steps of others. */
  function Level(step: Step, i: nat): nat {
    if step.Admit? || step.run != i then 0
    else match step
      case StartFails(_) => 3
      case Enter(_, _) => 3
      case Exit(_, _) => 2
      case ReaderFails(_, _) => 2
      case Finish(_) => 1
      case _ => 0
  }

  /** The step is the one run `i`'s worker has to take next, in one of its forms. */
  predicate Due(b: Board, step: Step, i: nat) {
    i < |b.all| && Level(step, i) == Rank(b.all[i].phase) > 0
  }

  /** A due step brings the worker nearer to its end; no other step moves it. */
  lemma {:induction false} DueLowersRank(b: Board, step: Step, i: nat)
    requires Indexed(b) && i < |b.all|
    ensures var b' := Apply(b, step);
            && i < |b'.all|
            && (if Due(b, step, i) then Rank(b'.all[i].phase) < Rank(b.all[i].phase)
                else b'.all[i].phase == b.all[i].phase)
  {
    hide Answer, Put, Tail;
  }

  /** How many of a schedule's steps are due for run `i` when they are taken. */
  ghost function DueSteps(b: Board, steps: seq<Step>, i: nat): nat
    requires Inv(b)
    decreases |steps|
  {
    if steps == [] then 0 else
    StepKeepsInv(b, steps[0]);
    (if Due(b, steps[0], i) then 1 else 0) + DueSteps(Apply(b, steps[0]), steps[1..], i)
  }

  /** What the worker of an un-ended run does next, given what its surroundings answer. */
  function NextStep(p: Phase, i: nat, creation: Creation, rc: int): Step
    requires !p.Over?
  {
    match p case Admitted => Enter(i, creation) case Live => Exit(i, rc) case Closing(_) => Finish(i)
  }

  /** No worker is ever stuck: wherever it stands and whatever it is answered, its own next steps end its run. */
  lemma {:induction false} NeverStuck(b: Board, i: nat, creation: Creation, rc: int) returns (steps: seq<Step>)
    requires Inv(b) && i < |b.all|
    ensures |steps| <= Rank(b.all[i].phase) && forall k | 0 <= k < |steps| :: !steps[k].Admit? && steps[k].run == i
    ensures DueSteps(b, steps, i) == |steps|
    ensures i < |Exec(b, steps).all| && Ended(Exec(b, steps).all[i])
    decreases Rank(b.all[i].phase)
  {
    hide Inv, Apply;
    steps := [];
    if !Ended(b.all[i]) {
      var step := NextStep(b.all[i].phase, i, creation, rc);
      InvIndexed(b);
      StepKeepsInv(b, step);
      DueLowersRank(b, step, i);
      var rest := NeverStuck(Apply(b, step), i, creation, rc);
      steps := [step] + rest;
      assert steps[0] == step && steps[1..] == rest;
    }
  }

  /** A worker's steps count down to its end, so that it takes at most three. */
  lemma {:induction false} DueStepsCountDown(b: Board, steps: seq<Step>, i: nat)
    requires Inv(b) && i < |b.all|
    ensures var b' := Exec(b, steps);
            i < |b'.all| && Rank(b'.all[i].phase) + DueSteps(b, steps, i) <= Rank(b.all[i].phase) <= 3
    decreases |steps|
  {
    hide Inv, Apply, Level, Rank;
    RankIsSmall(b.all[i].phase);
    if steps != [] {
      InvIndexed(b);
      StepKeepsInv(b, steps[0]);
      DueLowersRank(b, steps[0], i);
      DueStepsCountDown(Apply(b, steps[0]), steps[1..], i);
    }
  }

  lemma {:induction false} RankIsSmall(p: Phase)
    ensures Rank(p) <= 3
  {
  }

  function Occurrences(log: seq<Action>, a: Action): nat {
    if log == [] then 0 else (if log[|log| - 1] == a then 1 else 0) + Occurrences(log[..|log| - 1], a)
  }

  /** Over every schedule a run has one effective finish if it has ended, and none if it has not. */
  lemma {:induction false} OneFinishPerEnd(b: Board, steps: seq<Step>, i: nat)
    requires Inv(b) && i < |b.all|
    ensures var b' := Exec(b, steps);
            && i < |b'.all| && Occurrences(b'.log, Finished(i)) == (if Ended(b'.all[i]) then 1 else 0)
            && (Ended(b'.all[i]) && Spawned(i) !in b'.log ==>
                  UnspawnedCode(b'.all[i].phase.rc, b'.all[i].stopRequested))
  {
    hide Exec, UnspawnedCode;
    ExecKeepsInv(b, steps);
    ExecKeepsRequests(b, steps);
    var b' := Exec(b, steps);
    assert Tracks(b'.all[i], i, b'.log);
    hide Inv;
    LawfulOfInv(b');
    FinishedOnce(b'.log, i);
  }

  /** In every round, run `i` has ended or its worker gets to take a step that is due. */
  ghost predicate Fair(b: Board, rounds: seq<seq<Step>>, i: nat)
    requires Inv(b)
    decreases |rounds|
  {
    rounds == [] ||
    (ExecKeepsInv(b, rounds[0]);
     (i < |b.all| && (Ended(b.all[i]) || DueSteps(b, rounds[0], i) > 0)) && Fair(Exec(b, rounds[0]), rounds[1..], i))
  }

  function Flat(rounds: seq<seq<Step>>): seq<Step> {
    if rounds == [] then [] else rounds[0] + Flat(rounds[1..])
  }

  lemma {:induction false} RoundsEnd(b: Board, rounds: seq<seq<Step>>, i: nat)
    requires Inv(b) && i < |b.all| && Fair(b, rounds, i) && |rounds| >= Rank(b.all[i].phase)
    ensures var b' := Exec(b, Flat(rounds)); i < |b'.all| && Ended(b'.all[i])
    decreases |rounds|
  {
    hide Inv, DueSteps;
    if rounds == [] {
      assert Flat(rounds) == [];
    } else {
      hide Exec;
      DueStepsCountDown(b, rounds[0], i);
      ExecAppend(b, rounds[0], Flat(rounds[1..]));
      RoundsEnd(Exec(b, rounds[0]), rounds[1..], i);
    }
  }

  /**
    * Every worker that is not held up for ever finishes, whatever the other runs do and wherever it stood: three
    * rounds, each with a due step unless the run has ended, end it with exactly one effective finish.
    */
  lemma {:induction false} EveryWorkerFinishes(b: Board, rounds: seq<seq<Step>>, i: nat)
    requires Inv(b) && i < |b.all| && Fair(b, rounds, i) && |rounds| >= 3
    ensures var b' := Exec(b, Flat(rounds));
            && i < |b'.all| && Ended(b'.all[i]) && Occurrences(b'.log, Finished(i)) == 1
            && (Spawned(i) !in b'.log ==> UnspawnedCode(b'.all[i].phase.rc, b'.all[i].stopRequested))
  {
    hide Inv, Exec, Fair, UnspawnedCode, Occurrences;
    RankIsSmall(b.all[i].phase);
    RoundsEnd(b, rounds, i);
    OneFinishPerEnd(b, Flat(rounds), i);
  }

  /** A worker's ways to its end. */
  datatype Path =
    | NotStarted
    | StoppedFirst(creation: Creation)
    | NotCreated(missing: bool)
    | Ran(rc: int)
    | ReaderBroke(missing: bool)

  function PathSteps(p: Path, i: nat): seq<Step> {
    match p
    case NotStarted => [StartFails(i), Finish(i)]
    case StoppedFirst(creation) => [Kill(i), Enter(i, creation), Finish(i)]
    case NotCreated(missing) => [Enter(i, if missing then FileMissing else Broken), Finish(i)]
    case Ran(rc) => [Enter(i, Created), Exit(i, rc), Finish(i)]
    case ReaderBroke(missing) => [Enter(i, Created), ReaderFails(i, missing), Finish(i)]
  }

  function PathCode(p: Path): int {
    match p
    case NotStarted => 1
    case StoppedFirst(_) => -SIGTERM
    case NotCreated(missing) => if missing then 127 else 1
    case Ran(rc) => rc
    case ReaderBroke(missing) => if missing then 127 else 1
  }

  lemma {:induction false} ApplyToRun(b: Board, step: Step, i: nat)
    requires Inv(b) && i < |b.all| && !step.Admit? && step.run == i
    ensures Inv(Apply(b, step)) && Indexed(Apply(b, step))
    ensures var r := Move(b.all[i], step).run;
            Apply(b, step).all == b.all[i := r] && Apply(b, step).runs == b.runs && Apply(b, step).maxRuns == b.maxRuns
  {
    hide Inv, Move;
    InvIndexed(b);
    StepKeepsInv(b, step);
    InvIndexed(Apply(b, step));
  }

  /** Taken by itself, each path ends the run with its own code and one effective finish. */
  lemma {:induction false} EveryPathFinishes(b: Board, i: nat, p: Path)
    requires Inv(b) && i < |b.all| && b.all[i].phase.Admitted? && !b.all[i].stopRequested
    ensures var b' := Exec(b, PathSteps(p, i));
            && |b'.all| == |b.all| && b'.all == b.all[i := b'.all[i]] && b'.runs == b.runs && b'.maxRuns == b.maxRuns
            && b'.all[i].phase == Over(PathCode(p)) && Occurrences(b'.log, Finished(i)) == 1
  {
    hide Inv, Apply, Occurrences, Answer;
    InvIndexed(b);
    var t := PathSteps(p, i);
    OneFinishPerEnd(b, t, i);
    var b1 := Apply(b, t[0]);
    ApplyToRun(b, t[0], i);
    var b2 := Apply(b1, t[1]);
    ApplyToRun(b1, t[1], i);
    if |t| == 2 {
      assert t[1..][1..] == [];
      assert Exec(b, t) == Exec(b1, t[1..]) == Exec(b2, []) == b2;
    } else {
      ApplyToRun(b2, t[2], i);
      assert t[1..][1..] == t[2..] && t[2..][1..] == [];
      assert Exec(b, t) == Exec(b1, t[1..]) == Exec(b2, t[2..]) == Exec(Apply(b2, t[2]), []);
    }
  }

  lemma {:induction false} LawfulOfInv(b: Board)
    requires Inv(b)
    ensures Lawful(b.log)
  {
  }

  lemma {:induction false} FinishedOnce(log: seq<Action>, i: nat)
    requires Lawful(log)
    ensures Occurrences(log, Finished(i)) == if Finished(i) in log then 1 else 0
  {
    if log != [] {
      var past := log[..|log| - 1];
      forall k | 0 <= k < |past| ensures Allowed(past[..k], past[k]) {
        assert past[..k] == log[..k];
        assert Allowed(log[..k], log[k]);
      }
      FinishedOnce(past, i);
      assert Allowed(past, log[|log| - 1]);
      assert log == past + [log[|log| - 1]];
    }
  }

  // ------------------------------------------------------------------ a retry that comes too late

  const KEY: Option<string> := Some("key")

  /** A run is admitted under the key and ends; another one takes its place and ends. */
  function LateRetry(request: Request): seq<Step> {
    FirstRun(request) + ([Admit("b", None, request)] + PathSteps(NotStarted, 1))
  }

  lemma {:induction false} OnlyNewest(all: seq<RunRec>, runs: seq<nat>, run: nat)
    requires run < |all| && (forall k | 0 <= k < |runs| :: runs[k] < |all|) && |runs| <= 1
    ensures Tail(Put(all, runs, run), 1) == [run]
  {
    hide Put, Tail;
    var p := Put(all, runs, run);
    if |p| == 1 {
      assert p == [run];
      TailIsDrop(p, 1, 0);
    } else {
      TailIsDrop(p, 1, 1);
    }
  }

  /** In a registry of one, a run that fails to start takes the place of whatever was there, and ends. */
  lemma {:induction false} FailsToRun(b: Board, id: string, requestId: Option<string>, request: Request)
    requires Inv(b) && b.maxRuns == 1 && Answer(b, requestId, request).New?
    ensures var i := |b.all|;
            var b' := Exec(b, [Admit(id, requestId, request)] + PathSteps(NotStarted, i));
            && |b'.all| == i + 1 && b'.all[..i] == b.all && b'.runs == [i] && b'.maxRuns == 1
            && Ended(b'.all[i]) && b'.all[i].requestId == requestId && b'.all[i].request == request
  {
    hide Inv, Answer, Put, Tail, AnyActive, PathSteps, PathCode;
    InvParts(b);
    var i := |b.all|;
    var b1 := AdmitRun(b, id, requestId, request);
    StepKeepsInv(b, Admit(id, requestId, request));
    OnlyNewest(b1.all, b.runs, i);
    EveryPathFinishes(b1, i, NotStarted);
    ExecKeepsRequests(b1, PathSteps(NotStarted, i));
    var t := [Admit(id, requestId, request)] + PathSteps(NotStarted, i);
    assert t[0] == Admit(id, requestId, request) && t[1..] == PathSteps(NotStarted, i);
    assert Exec(b, t) == Exec(b1, t[1..]);
    hide Exec;
  }

  function FirstRun(request: Request): seq<Step> {
    [Admit("a", KEY, request)] + PathSteps(NotStarted, 0)
  }

  lemma {:induction false} AfterFirstRun(request: Request)
    ensures Inv(Start(1))
    ensures var b := Exec(Start(1), FirstRun(request));
            && Inv(b) && b.maxRuns == 1 && |b.all| == 1 && b.all[0].requestId == KEY && b.all[0].request == request
            && Answer(b, None, request).New?
  {
    StartIsInv(1);
    assert Answer(Start(1), KEY, request) == New(0);
    hide Exec, Inv, PathSteps, Answer;
    ExecKeepsInv(Start(1), FirstRun(request));
    FailsToRun(Start(1), "a", KEY, request);
    var b := Exec(Start(1), FirstRun(request));
    InvIndexed(b);
    AnswerIs(b, None, request, 0);
  }

  /** Another run drops the first one from a registry of one, and its key is free again. */
  lemma {:induction false} AfterSecondRun(b: Board, request: Request)
    requires Inv(b) && b.maxRuns == 1 && |b.all| == 1 && b.all[0].requestId == KEY && Answer(b, None, request).New?
    ensures var b' := Exec(b, [Admit("b", None, request)] + PathSteps(NotStarted, 1));
            && Inv(b') && |b'.all| == 2 && b'.all[0] == b.all[0] && Answer(b', KEY, request) == New(2)
  {
    hide Exec, Inv, PathSteps, Answer;
    var u := [Admit("b", None, request)] + PathSteps(NotStarted, 1);
    ExecKeepsInv(b, u);
    InvParts(b);
    NewMeansIdle(b, None, request);
    FailsToRun(b, "b", None, request);
    var b' := Exec(b, u);
    assert b'.all[0] == b'.all[..1][0];
    InvIndexed(b');
    AnswerIs(b', KEY, request, 0);
    NewIsNext(b', KEY, request);
  }

  /** A retry of a key whose run has been dropped is admitted as a new run. */
  lemma {:induction false} LateRetryStartsAnew(request: Request)
    ensures (AfterFirstRun(request); ExecKeepsInv(Start(1), LateRetry(request));
             var b := Exec(Start(1), LateRetry(request));
             && Indexed(b) && |b.all| == 2 && b.all[0].requestId == KEY && b.all[0].request == request
             && Answer(b, KEY, request) == New(2))
  {
    hide Exec, Inv, PathSteps, Answer;
    AfterFirstRun(request);
    AfterSecondRun(Exec(Start(1), FirstRun(request)), request);
    ExecAppend(Start(1), FirstRun(request), [Admit("b", None, request)] + PathSteps(NotStarted, 1));
    InvIndexed(Exec(Start(1), LateRetry(request)));
  }

  lemma {:induction false} NewIsNext(b: Board, requestId: Option<string>, request: Request)
    requires Indexed(b) && Answer(b, requestId, request).New?
    ensures Answer(b, requestId, request) == New(|b.all|)
  {
  }
}
