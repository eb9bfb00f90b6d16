/**
  * The registry with the stream of every run it ever admitted. The registry's `ended` and a log's terminal event are
  * set by the same critical section; that they always agree is what ties admission to what readers are told.
  */
module WholeDashboard {
  import opened Common
  import Admission
  import RunLog
  import Stream
  import StreamSafety

  /** `streams[i]` is the log of run `i` with its readers. */
  datatype World = World(bounds: RunLog.Bounds, board: Admission.Board, streams: seq<Stream.System>)

  /** A step of the registry, a worker or a stop; or a line, a handler, the network or a browser of one run. */
  datatype Step =
    | Act(action: Admission.Step, recording: RunLog.Recording, drains: map<nat, seq<Stream.Turn>>)
    | Local(run: nat, step: Stream.Step)

  /** The worker's `finish` goes to the log, which decides by itself whether it still counts. */
  function FinishStream(w: World, step: Step): seq<Stream.System>
    requires step.Act? && step.action.Finish?
  {
    var i := step.action.run;
    if i >= |w.streams| || i >= |w.board.all| then w.streams else
    var phase := w.board.all[i].phase;
    if phase.Closing? || phase.Over? then
      w.streams[i := Stream.Apply(w.streams[i], Stream.FinishRun(phase.rc, step.recording, step.drains))]
    else w.streams
  }

  function Apply(w: World, step: Step): World
    requires Admission.Indexed(w.board)
  {
    match step
    case Act(action, _, _) =>
      var board := Admission.Apply(w.board, action);
      w.(board := board,
         streams := if |board.all| > |w.board.all| then w.streams + [Stream.Start(w.bounds)]
                    else if action.Finish? then FinishStream(w, step)
                    else w.streams)
    case Local(i, s) =>
      if i < |w.streams| && !s.FinishRun? then w.(streams := w.streams[i := Stream.Apply(w.streams[i], s)]) else w
  }

  function Start(bounds: RunLog.Bounds, maxRuns: nat): World {
    World(bounds, Admission.Start(maxRuns), [])
  }

  // ------------------------------------------------------------------ what every step keeps

  /** The record of a run says it has ended iff its log has the terminal event, with the same code. */
  predicate Mirrors(r: Admission.RunRec, s: Stream.System) {
    && (Admission.Ended(r) <==> s.run.terminal.Some?)
    && (Admission.Ended(r) ==> Tells(s, r.phase.rc))
  }

  /** The log ends in an end event with the code. */
  predicate Tells(s: Stream.System, rc: int) {
    && s.run.terminal.Some? && s.run.terminal.value.data.Outcome? && s.run.terminal.value.data.rc == rc
    && s.run.history != [] && s.run.history[|s.run.history| - 1] == s.run.terminal.value
    && s.run.terminal.value.kind == RunLog.End
  }

  predicate MirroredAt(w: World, i: nat) {
    i < |w.streams| && i < |w.board.all| && Stream.Inv(false, w.streams[i]) && Mirrors(w.board.all[i], w.streams[i])
  }

  ghost predicate Inv(w: World) {
    && w.bounds.maxLines > 0 && w.bounds.queueSize > 0
    && Admission.Inv(w.board) && |w.streams| == |w.board.all|
    && forall i | 0 <= i < |w.streams| :: MirroredAt(w, i)
  }

  lemma {:induction false} MoveEnds(r: Admission.RunRec, a: Admission.Step)
    requires !a.Admit?
    ensures var r' := Admission.Move(r, a).run;
            && (Admission.Ended(r') <==> Admission.Ended(r) || (a.Finish? && r.phase.Closing?))
            && (Admission.Ended(r') ==> r.phase.rc == r'.phase.rc)
  {
  }

  lemma {:induction false} FinishTells(
      s: Stream.System, rc: int, recording: RunLog.Recording, drains: map<nat, seq<Stream.Turn>>)
    requires Stream.Inv(false, s)
    ensures var s' := Stream.Apply(s, Stream.FinishRun(rc, recording, drains));
            if s.run.terminal.Some? then s' == s
            else Tells(s', rc) && RunLog.TellsOutcome(s'.run.terminal.value, rc, recording)
  {
    hide RunLog.Numbered, RunLog.LogLines, Tail, Stream.ClientOk, Stream.Separate, Stream.Overtaken;
  }

  lemma {:induction false} LocalKeepsEnd(s: Stream.System, step: Stream.Step)
    requires Stream.Inv(false, s) && !step.FinishRun?
    ensures var s' := Stream.Apply(s, step);
            && s'.run.terminal == s.run.terminal && s.run.history <= s'.run.history
            && (s.run.terminal.Some? ==> s'.run.history == s.run.history)
  {
    hide RunLog.Numbered, RunLog.LogLines, Tail, Stream.ClientOk, Stream.Separate, Stream.Overtaken, Stream.Hear,
         RunLog.Backlog;
  }

  lemma {:induction false} LocalMirrors(r: Admission.RunRec, s: Stream.System, step: Stream.Step)
    requires Stream.Inv(false, s) && Mirrors(r, s) && !step.FinishRun?
    ensures Mirrors(r, Stream.Apply(s, step))
  {
    hide Stream.Inv, Stream.Apply;
    LocalKeepsEnd(s, step);
  }

  lemma {:induction false} ActionMirrors(
      r: Admission.RunRec, s: Stream.System, a: Admission.Step, recording: RunLog.Recording,
      drains: map<nat, seq<Stream.Turn>>)
    requires Stream.Inv(false, s) && Mirrors(r, s) && !a.Admit?
    ensures var r' := Admission.Move(r, a).run;
            Mirrors(r', if a.Finish? && (r.phase.Closing? || r.phase.Over?)
                        then Stream.Apply(s, Stream.FinishRun(r.phase.rc, recording, drains)) else s)
  {
    hide Stream.Inv, Stream.Apply, Admission.Move;
    MoveEnds(r, a);
    if a.Finish? && (r.phase.Closing? || r.phase.Over?) {
      FinishTells(s, r.phase.rc, recording, drains);
    }
  }

  lemma {:induction false} NewMirrors(r: Admission.RunRec, bounds: RunLog.Bounds)
    requires bounds.maxLines > 0 && bounds.queueSize > 0 && r.phase.Admitted?
    ensures Stream.Inv(false, Stream.Start(bounds)) && Mirrors(r, Stream.Start(bounds))
  {
    Stream.StartOk(false, bounds);
  }

  /** What an action does to the records: one more, or one moved. */
  lemma {:induction false} RecordsAfter(b: Admission.Board, a: Admission.Step)
    requires Admission.Indexed(b)
    ensures var all, all' := b.all, Admission.Apply(b, a).all;
            if a.Admit? then
              all' == all || (|all'| == |all| + 1 && all'[..|all|] == all && all'[|all|].phase.Admitted?)
            else if a.run < |all| then all' == all[a.run := Admission.Move(all[a.run], a).run] else all' == all
  {
    hide Admission.Move, Admission.Answer, Admission.Put;
  }

  lemma {:induction false} ActLength(w: World, step: Step)
    requires Admission.Indexed(w.board) && step.Act? && |w.streams| == |w.board.all|
    ensures |Apply(w, step).streams| == |Apply(w, step).board.all| && Apply(w, step).bounds == w.bounds
  {
    hide Admission.Move, Admission.Apply, Stream.Apply;
    RecordsAfter(w.board, step.action);
  }

  lemma {:induction false} ActMirrors(w: World, step: Step, i: nat)
    requires Admission.Indexed(w.board) && step.Act? && |w.streams| == |w.board.all|
    requires w.bounds.maxLines > 0 && w.bounds.queueSize > 0 && i < |Apply(w, step).board.all|
    requires i < |w.board.all| ==> MirroredAt(w, i)
    ensures MirroredAt(Apply(w, step), i)
  {
    hide Stream.Inv, Mirrors, Admission.Move, Admission.Apply, Admission.Indexed, Stream.Apply;
    var a := step.action;
    ActLength(w, step);
    RecordsAfter(w.board, a);
    if i == |w.board.all| {
      NewMirrors(Apply(w, step).board.all[i], w.bounds);
    } else if !a.Admit? && i == a.run {
      ActionMirrors(w.board.all[i], w.streams[i], a, step.recording, step.drains);
      FinishKeepsStream(w.streams[i], w.board.all[i].phase, step.recording, step.drains);
    } else {
      assert a.Admit? ==> Apply(w, step).board.all[i] == Apply(w, step).board.all[..|w.board.all|][i];
    }
  }

  lemma {:induction false} FinishKeepsStream(
      s: Stream.System, phase: Admission.Phase, recording: RunLog.Recording, drains: map<nat, seq<Stream.Turn>>)
    requires Stream.Inv(false, s)
    ensures phase.Closing? || phase.Over? ==>
              Stream.Inv(false, Stream.Apply(s, Stream.FinishRun(phase.rc, recording, drains)))
  {
    hide Stream.Inv, Stream.Apply;
    if phase.Closing? || phase.Over? {
      Stream.StepKeepsInv(false, s, Stream.FinishRun(phase.rc, recording, drains));
    }
  }

  lemma {:induction false} LocalKeepsInv(w: World, i: nat, s: Stream.Step)
    requires Inv(w) && Admission.Indexed(w.board) && i < |w.streams| && !s.FinishRun?
    ensures Inv(Apply(w, Local(i, s)))
  {
    hide Stream.Inv, Mirrors, Admission.Inv, Stream.Apply, Admission.Indexed;
    assert MirroredAt(w, i);
    Stream.StepKeepsInv(false, w.streams[i], s);
    LocalMirrors(w.board.all[i], w.streams[i], s);
    var w' := Apply(w, Local(i, s));
    forall k: nat | k < |w'.streams| ensures MirroredAt(w', k) {
      assert MirroredAt(w, k);
    }
  }

  lemma {:induction false} StepKeepsInv(w: World, step: Step)
    requires Inv(w)
    ensures Admission.Indexed(w.board) && Inv(Apply(w, step)) && Apply(w, step).bounds == w.bounds
  {
    Admission.InvIndexed(w.board);
    hide MirroredAt, Admission.Inv, Stream.Apply, Admission.Apply, Admission.Indexed;
    if step.Act? {
      Admission.StepKeepsInv(w.board, step.action);
      ActLength(w, step);
      forall i: nat | i < |Apply(w, step).streams| ensures MirroredAt(Apply(w, step), i) {
        ActMirrors(w, step, i);
      }
    } else if step.run < |w.streams| && !step.step.FinishRun? {
      LocalKeepsInv(w, step.run, step.step);
    }
  }

  // ------------------------------------------------------------------ each run's stream runs the stream machine

  /** The stream of run `i`; that of a run not yet admitted is a fresh one. */
  function StreamOf(w: World, i: nat): Stream.System {
    if i < |w.streams| then w.streams[i] else Stream.Start(w.bounds)
  }

  /** What a step does in the stream of run `i`. */
  function Touch(w: World, step: Step, i: nat): seq<Stream.Step> {
    match step
    case Local(run, s) => if run == i < |w.streams| && !s.FinishRun? then [s] else []
    case Act(a, recording, drains) =>
      if a.Finish? && a.run == i < |w.streams| && i < |w.board.all|
         && (w.board.all[i].phase.Closing? || w.board.all[i].phase.Over?)
      then [Stream.FinishRun(w.board.all[i].phase.rc, recording, drains)] else []
  }

  lemma {:induction false} TouchIs(w: World, step: Step, i: nat)
    requires Admission.Indexed(w.board) && |w.streams| == |w.board.all|
    ensures StreamOf(Apply(w, step), i) == Stream.Exec(StreamOf(w, i), Touch(w, step, i))
  {
    hide Admission.Move, Admission.Apply, Admission.Indexed, Stream.Apply;
    if step.Act? {
      RecordsAfter(w.board, step.action);
    }
    OneStep(StreamOf(w, i), Touch(w, step, i));
  }

  lemma {:induction false} OneStep(s: Stream.System, steps: seq<Stream.Step>)
    requires |steps| <= 1
    ensures Stream.Exec(s, steps) == if steps == [] then s else Stream.Apply(s, steps[0])
  {
    hide Stream.Apply;
    if steps != [] {
      assert steps[1..] == [];
    }
  }

  ghost function Exec(w: World, steps: seq<Step>): (r: World)
    requires Inv(w)
    ensures Inv(r) && r.bounds == w.bounds
    decreases |steps|
  {
    if steps == [] then w else
    StepKeepsInv(w, steps[0]);
    Exec(Apply(w, steps[0]), steps[1..])
  }

  /** What a schedule does in the stream of run `i`. */
  ghost function Projection(w: World, steps: seq<Step>, i: nat): seq<Stream.Step>
    requires Inv(w)
    decreases |steps|
  {
    if steps == [] then [] else
    StepKeepsInv(w, steps[0]);
    Touch(w, steps[0], i) + Projection(Apply(w, steps[0]), steps[1..], i)
  }

  /** In the whole dashboard, each run's stream behaves as the stream machine does by itself. */
  lemma {:induction false} StreamsRunTheirMachine(w: World, steps: seq<Step>, i: nat)
    requires Inv(w)
    ensures StreamOf(Exec(w, steps), i) == Stream.Exec(StreamOf(w, i), Projection(w, steps, i))
    decreases |steps|
  {
    hide Inv, StreamOf, Touch, Apply, Stream.Apply;
    if steps != [] {
      StepKeepsInv(w, steps[0]);
      LengthsAgree(w);
      var rest := Projection(Apply(w, steps[0]), steps[1..], i);
      TouchIs(w, steps[0], i);
      StreamsRunTheirMachine(Apply(w, steps[0]), steps[1..], i);
      StreamSafety.ExecAppend(StreamOf(w, i), Touch(w, steps[0], i), rest);
    }
  }

  lemma {:induction false} LengthsAgree(w: World)
    requires Inv(w)
    ensures Admission.Indexed(w.board) && |w.streams| == |w.board.all| && Admission.NewestOnly(w.board)
    ensures w.bounds.maxLines > 0 && w.bounds.queueSize > 0
  {
    hide MirroredAt;
  }

  // ------------------------------------------------------------------ what holds of the whole dashboard

  lemma {:induction false} StartIsInv(bounds: RunLog.Bounds, maxRuns: nat)
    requires bounds.maxLines > 0 && bounds.queueSize > 0 && maxRuns > 0
    ensures Inv(Start(bounds, maxRuns))
  {
  }

  ghost function Reached(bounds: RunLog.Bounds, maxRuns: nat, steps: seq<Step>): (w: World)
    requires bounds.maxLines > 0 && bounds.queueSize > 0 && maxRuns > 0
    ensures Inv(w) && w.bounds == bounds
  {
    StartIsInv(bounds, maxRuns);
    Exec(Start(bounds, maxRuns), steps)
  }

  /** Over every schedule: a run has ended iff its log has published its end event, which tells the run's code. */
  lemma {:induction false} EndedIffTold(bounds: RunLog.Bounds, maxRuns: nat, steps: seq<Step>, i: nat)
    requires bounds.maxLines > 0 && bounds.queueSize > 0 && maxRuns > 0
    requires i < |Reached(bounds, maxRuns, steps).streams|
    ensures var w := Reached(bounds, maxRuns, steps);
            && i < |w.board.all| && (Admission.Ended(w.board.all[i]) <==> w.streams[i].run.terminal.Some?)
            && (Admission.Ended(w.board.all[i]) ==> Tells(w.streams[i], w.board.all[i].phase.rc))
  {
    hide Exec, Tells, Stream.Inv;
    assert MirroredAt(Reached(bounds, maxRuns, steps), i);
  }

  /** A stream that has ended publishes nothing more, whatever happens in the dashboard. */
  lemma {:induction false} ToldForGood(w: World, steps: seq<Step>, i: nat)
    requires Inv(w) && i < |w.streams| && w.streams[i].run.terminal.Some?
    ensures var w' := Exec(w, steps);
            && i < |w'.streams| && w'.streams[i].run.history == w.streams[i].run.history
            && w'.streams[i].run.terminal == w.streams[i].run.terminal
  {
    hide Inv, Exec;
    StreamsRunTheirMachine(w, steps, i);
    StreamsOnlyGrow(w, steps);
    StreamSafety.FinishedRunIsFrozen(w.streams[i], Projection(w, steps, i));
  }

  lemma {:induction false} StreamsOnlyGrow(w: World, steps: seq<Step>)
    requires Inv(w)
    ensures |Exec(w, steps).streams| >= |w.streams|
    decreases |steps|
  {
    hide Inv, Admission.Apply, Stream.Apply;
    if steps != [] {
      StepKeepsInv(w, steps[0]);
      StreamsOnlyGrow(Apply(w, steps[0]), steps[1..]);
    }
  }

  /**
    * A run is admitted only when every earlier run's readers have been told its end: in every reachable state the
    * log of every run but the newest is closed by its end event, and it stays as it is for ever.
    */
  lemma {:induction false} EarlierRunsAreTold(
      bounds: RunLog.Bounds, maxRuns: nat, past: seq<Step>, future: seq<Step>, i: nat)
    requires bounds.maxLines > 0 && bounds.queueSize > 0 && maxRuns > 0
    requires i + 1 < |Reached(bounds, maxRuns, past).streams|
    ensures var w := Reached(bounds, maxRuns, past);
            var w' := Exec(w, future);
            && i < |w.board.all| && i < |w'.streams| && Tells(w.streams[i], w.board.all[i].phase.rc)
            && w'.streams[i].run.history == w.streams[i].run.history
  {
    hide Inv, Exec, Tells;
    var w := Reached(bounds, maxRuns, past);
    EndedIffTold(bounds, maxRuns, past, i);
    LengthsAgree(w);
    assert Admission.Ended(w.board.all[i]);
    ToldForGood(w, future, i);
  }

  /** A stream ends by a finish of its run's worker, and tells that finish's recording. */
  lemma {:induction false} EndsNow(w: World, step: Step, i: nat)
    requires Inv(w) && Admission.Indexed(w.board) && i < |Apply(w, step).streams|
    requires Apply(w, step).streams[i].run.terminal.Some?
    requires i < |w.streams| ==> w.streams[i].run.terminal.None?
    ensures step.Act? && step.action == Admission.Finish(i)
    ensures var e := Apply(w, step).streams[i].run.terminal.value; RunLog.TellsOutcome(e, e.data.rc, step.recording)
  {
    hide Stream.Inv, Stream.Apply, Admission.Inv, Admission.Apply, Admission.Indexed;
    LengthsAgree(w);
    assert i < |w.streams| ==> MirroredAt(w, i);
    if i == |w.streams| {
    } else if step.Local? && step.run == i && !step.step.FinishRun? {
      LocalKeepsEnd(w.streams[i], step.step);
    } else if step.Act? && step.action == Admission.Finish(i) {
      var phase := w.board.all[i].phase;
      if phase.Closing? || phase.Over? {
        FinishTells(w.streams[i], phase.rc, step.recording, step.drains);
      }
    }
  }

  /** Over every schedule: what a run's readers are told at the end is what its worker's finish recorded. */
  lemma {:induction false} TellsItsFinish(w: World, steps: seq<Step>, i: nat) returns (k: nat)
    requires Inv(w) && i < |Exec(w, steps).streams| && Exec(w, steps).streams[i].run.terminal.Some?
    requires i < |w.streams| ==> w.streams[i].run.terminal.None?
    ensures k < |steps| && steps[k].Act? && steps[k].action == Admission.Finish(i)
    ensures var w' := Exec(w, steps);
            && i < |w'.board.all| && w'.board.all[i].phase.Over?
            && RunLog.TellsOutcome(w'.streams[i].run.terminal.value, w'.board.all[i].phase.rc, steps[k].recording)
    decreases |steps|
  {
    hide Inv, Apply, RunLog.TellsOutcome, Admission.Indexed;
    StepKeepsInv(w, steps[0]);
    var w1 := Apply(w, steps[0]);
    if i < |w1.streams| && w1.streams[i].run.terminal.Some? {
      k := 0;
      EndsNow(w, steps[0], i);
      ToldForGood(w1, steps[1..], i);
      CodeIsTold(Exec(w, steps), i);
    } else {
      k := TellsItsFinish(w1, steps[1..], i);
      k := k + 1;
    }
  }

  lemma {:induction false} CodeIsTold(w: World, i: nat)
    requires Inv(w) && i < |w.streams| && w.streams[i].run.terminal.Some?
    ensures i < |w.board.all| && w.board.all[i].phase.Over? && w.streams[i].run.terminal.value.data.Outcome?
    ensures w.streams[i].run.terminal.value.data.rc == w.board.all[i].phase.rc
  {
    assert MirroredAt(w, i);
    hide Inv, Stream.Inv;
  }

  predicate CleanStep(size: nat, step: Step) {
    match step
    case Act(_, _, drains) => forall c | c in drains :: Stream.Clean(size, drains[c])
    case Local(_, s) => Stream.CleanStep(size, s)
  }

  lemma {:induction false} CleanTouch(w: World, step: Step, i: nat, size: nat)
    requires CleanStep(size, step)
    ensures StreamSafety.AllClean(size, Touch(w, step, i))
  {
  }

  lemma {:induction false} ProjectionIsClean(w: World, steps: seq<Step>, i: nat, size: nat)
    requires Inv(w) && forall k | 0 <= k < |steps| :: CleanStep(size, steps[k])
    ensures StreamSafety.AllClean(size, Projection(w, steps, i))
    decreases |steps|
  {
    hide Inv, Touch, Apply, CleanStep, Stream.CleanStep;
    if steps != [] {
      StepKeepsInv(w, steps[0]);
      CleanTouch(w, steps[0], i, size);
      ProjectionIsClean(Apply(w, steps[0]), steps[1..], i, size);
    }
  }

  /** With clean drains, every client of every run shows one contiguous block of that run's published events. */
  lemma {:induction false} EveryViewIsGapless(bounds: RunLog.Bounds, maxRuns: nat, steps: seq<Step>, i: nat, c: nat)
    requires bounds.maxLines > 0 && bounds.queueSize > 0 && maxRuns > 0
    requires forall k | 0 <= k < |steps| :: CleanStep(bounds.queueSize, steps[k])
    requires var w := Reached(bounds, maxRuns, steps); i < |w.streams| && c in w.streams[i].clients
    ensures var s := Reached(bounds, maxRuns, steps).streams[i];
            StreamSafety.ShowsBlock(s.run.history, s.clients[c])
  {
    hide Inv, Exec, CleanStep, StreamSafety.ShowsBlock, StreamSafety.AllClean;
    StartIsInv(bounds, maxRuns);
    var w := Start(bounds, maxRuns);
    StreamsRunTheirMachine(w, steps, i);
    ProjectionIsClean(w, steps, i, bounds.queueSize);
    StreamSafety.ViewsAreGapless(bounds, Projection(w, steps, i), c);
  }
}
