/** The dashboard's registry of runs and the workers' blocks, updated in place. */
module DashboardAdmission {
  import opened Common
  import opened Admission

  class Dashboard {
    const maxRuns: nat
    var all: seq<RunRec>
    var runs: seq<nat>
    ghost var log: seq<Action>

    ghost function View(): Board
      reads this
    {
      Board(maxRuns, all, runs, log)
    }

    constructor (maxRuns: nat)
      requires maxRuns > 0
      ensures View() == Start(maxRuns) && Inv(View())
    {
      this.maxRuns, all, runs, log := maxRuns, [], [], [];
    }

    /** Looks for a retry among the registered runs. */
    method FindExisting(requestId: Option<string>) returns (hit: Option<nat>)
      requires Indexed(View())
      ensures hit == if IsKey(requestId) then Find(all, runs, requestId) else None
    {
      if !IsKey(requestId) {
        return None;
      }
      for k := 0 to |runs|
        invariant Find(all, runs, requestId) == Find(all, runs[k..], requestId)
      {
        if all[runs[k]].requestId == requestId {
          return Some(runs[k]);
        }
        assert runs[k..][1..] == runs[k + 1..];
      }
      return None;
    }

    method IsBusy() returns (busy: bool)
      requires Indexed(View())
      ensures busy == AnyActive(all, runs)
    {
      for k := 0 to |runs|
        invariant forall j | 0 <= j < k :: Ended(all[runs[j]])
      {
        if !Ended(all[runs[k]]) {
          return true;
        }
      }
      return false;
    }

    /** Registers the run under its id: in the place of a run with that id, else behind the others. */
    method Register(run: nat)
      requires Indexed(View()) && run < |all|
      modifies this`runs
      ensures runs == Put(all, old(runs), run)
    {
      hide Put;
      for k := 0 to |runs|
        invariant forall j | 0 <= j < k :: all[runs[j]].id != all[run].id
      {
        if all[runs[k]].id == all[run].id {
          PutAt(all, runs, run, k);
          runs := runs[k := run];
          return;
        }
      }
      PutAt(all, runs, run, |runs|);
      runs := runs + [run];
    }

    /** Drops the oldest entries beyond the limit. */
    method EvictOldest()
      modifies this`runs
      ensures runs == Tail(old(runs), maxRuns)
    {
      ghost var was := runs;
      while |runs| > maxRuns
        invariant |runs| <= |was| && runs == was[|was| - |runs|..]
        invariant |was| > maxRuns ==> |runs| >= maxRuns
        invariant |was| <= maxRuns ==> runs == was
      {
        runs := runs[1..];
      }
    }

    /** Admission under the registry's lock. */
    method SpawnRun(id: string, requestId: Option<string>, request: Request) returns (r: Response)
      requires Inv(View())
      modifies this`all, this`runs
      ensures r == Answer(old(View()), requestId, request)
      ensures View() == Apply(old(View()), Admit(id, requestId, request)) && Inv(View())
    {
      hide Inv, Find, AnyActive, Put, Tail;
      InvIndexed(View());
      StepKeepsInv(View(), Admit(id, requestId, request));
      var hit := FindExisting(requestId);
      if hit.Some? {
        return if all[hit.value].request == request then Existing(hit.value) else Conflict;
      }
      var busy := IsBusy();
      if busy {
        return Busy;
      }
      var run := |all|;
      all := all + [RunRec(id, requestId, request, Admitted, false, false)];
      Register(run);
      EvictOldest();
      r := New(run);
    }

    /** The worker's block under the run's lock: creates the process unless a stop came first. */
    method EnterWorker(run: nat, creation: Creation) returns (running: bool)
      requires Inv(View()) && run < |all|
      modifies this`all, this`log
      ensures View() == Apply(old(View()), Enter(run, creation)) && Inv(View())
      ensures running == (old(all)[run].phase.Admitted? && all[run].phase.Live?)
    {
      hide Inv;
      InvIndexed(View());
      StepKeepsInv(View(), Enter(run, creation));
      running := false;
      var r := all[run];
      if r.phase.Admitted? {
        if r.stopRequested {
          all := all[run := r.(phase := Closing(-SIGTERM))];
        } else if creation.Created? {
          running := true;
          all := all[run := r.(phase := Live, spawned := true)];
          log := log + [Spawned(run)];
        } else {
          all := all[run := r.(phase := Closing(if creation.FileMissing? then 127 else 1))];
        }
      }
    }

    /** Marks a run as stopped unless it has ended; `pending` if it had no process yet. */
    method KillRun(run: nat) returns (pending: bool)
      requires Inv(View()) && run < |all|
      modifies this`all, this`log
      ensures View() == Apply(old(View()), Kill(run)) && Inv(View())
      ensures pending <==> !Ended(all[run]) && Spawned(run) !in log
      ensures !Ended(all[run]) ==> all[run].stopRequested
    {
      hide Inv, UnspawnedCode;
      assert Tracks(all[run], run, log) by { InvTracks(View(), run); }
      InvIndexed(View());
      StepKeepsInv(View(), Kill(run));
      var r := all[run];
      if Ended(r) {
        return false;
      }
      if !r.stopRequested {
        all := all[run := r.(stopRequested := true)];
        log := log + [Stopped(run)];
      }
      pending := !r.spawned;
    }

    /** Ends a closing run; of an ended one it changes nothing. */
    method FinishWorker(run: nat)
      requires Inv(View()) && run < |all|
      modifies this`all, this`log
      ensures View() == Apply(old(View()), Finish(run)) && Inv(View())
    {
      hide Inv;
      InvIndexed(View());
      StepKeepsInv(View(), Finish(run));
      var r := all[run];
      if r.phase.Closing? {
        all := all[run := r.(phase := Over(r.phase.rc))];
        log := log + [Finished(run)];
      }
    }
  }

  lemma {:induction false} PutAt(all: seq<RunRec>, runs: seq<nat>, run: nat, k: nat)
    requires run < |all| && k <= |runs| && forall j | 0 <= j < |runs| :: runs[j] < |all|
    requires forall j | 0 <= j < k :: all[runs[j]].id != all[run].id
    requires k < |runs| ==> all[runs[k]].id == all[run].id
    ensures Put(all, runs, run) == if k < |runs| then runs[k := run] else runs + [run]
  {
    if k > 0 {
      PutAt(all, runs[1..], run, k - 1);
    }
  }

  lemma {:induction false} InvTracks(b: Board, i: nat)
    requires Inv(b) && i < |b.all|
    ensures Tracks(b.all[i], i, b.log)
  {
  }
}
