/**
 The executor's state as the Go code holds it, changed in place: `Execute` is the loop over the levels with the
 wait for each level's goroutines, and every atomic stretch of it is noted as an action of a run.
 */
module ExecutorObject {
  import opened Wrappers
  import opened Template
  import opened Execution
  import opened ExecutionResults
  import opened ExecutionRuns

  class Executor {
    const plan: Plan
    var phase: Phase
    var runStatus: RunStatus
    var steps: map<string, StepStatus>
    var published: map<string, StepResult>
    var workers: map<string, Worker>
    var failed: bool
    var cancelled: bool
    var shutdown: bool
    ghost var record: History

    ghost function Now(): State
      reads this
    {
      State(phase, runStatus, steps, published, workers, failed, cancelled, shutdown)
    }

    ghost predicate Valid()
      reads this
    {
      |record.states| == |record.acts| + 1 && IsRun(plan, record) && record.states[|record.acts|] == Now()
    }

    /** A level is worked on only while there is one, and by goroutines that have a row. */
    ghost predicate InBounds()
      reads this
    {
      phase.InLevel? ==> phase.k < |plan.levels| && workers.Keys <= steps.Keys
    }

    constructor (p: Plan)
      ensures Valid() && plan == p && Now() == Init(p)
    {
      plan := p;
      phase, runStatus := NotStarted, RunPending;
      steps := map id | id in StepIds(p.graph) :: StepPending;
      published, workers := map[], map[];
      failed, cancelled, shutdown := false, false, false;
      record := History([Init(p)], []);
    }

    ghost method Note(a: Action)
      requires |record.states| == |record.acts| + 1 && IsRun(plan, record)
      requires Enabled(plan, record.states[|record.acts|], a)
      modifies this`record
      ensures |record.states| == |record.acts| + 1 && IsRun(plan, record)
      ensures record.acts == old(record.acts) + [a]
      ensures record.states[|record.acts|] == Apply(plan, old(record.states[|record.acts|]), a)
    {
      hide Enabled, Apply;
      record := History(record.states + [Apply(plan, record.states[|record.acts|], a)], record.acts + [a]);
    }

    /** The `for` over the levels, up to the next one with something to run. */
    method EnterFrom(k: nat)
      requires k <= |plan.levels|
      modifies this`phase, this`failed, this`workers
      ensures Now() == Enter(plan, old(Now()), k) && InBounds()
    {
      var i := k;
      while i < |plan.levels|
        invariant k <= i <= |plan.levels|
        invariant Now() == old(Now())
        invariant Enter(plan, old(Now()), k) == Enter(plan, old(Now()), i)
      {
        var nodes := ExecutableIds(plan.levels[i]) * steps.Keys;
        if nodes != {} {
          phase, failed := InLevel(i), false;
          workers := map id | id in nodes :: Spawned;
          return;
        }
        i := i + 1;
      }
      phase := Skipping(RunSucceeded, StepSkipped);
    }

    /** The next statement of a goroutine: the snapshot, `runStep` and the hand-over of its result. */
    method Advance(id: string, outcome: Outcome)
      requires Valid() && InBounds() && Live(Now(), id) && !workers[id].Exited?
      modifies this`workers, this`steps, this`published, this`failed, this`record
      ensures Valid() && InBounds() && workers.Keys == old(workers.Keys) && steps.Keys == old(steps.Keys)
      ensures WorkLeft(Now()) < old(WorkLeft(Now()))
      ensures |record.acts| == |old(record.acts)| + 1 && old(record.acts) <= record.acts
      ensures old(workers[id]).Working? ==> record.acts[|old(record.acts)|] == HandlerReturns(id, outcome)
    {
      hide IsRun, WorkLeft;
      var handled := HasHandler(plan, id);
      ghost var action :=
        match workers[id]
        case Spawned => TakeSnapshot(id)
        case Holding(_) => if handled then MarkStepRunning(id) else Refuse(id)
        case Working(_) => HandlerReturns(id, outcome)
        case Settling(_, _) => FinishStep(id)
        case _ => Action.Report(id);
      WorkerActionDropsWork(plan, Now(), action);
      Note(action);
      match workers[id] {
        case Spawned =>
          workers := workers[id := Holding(published)];
        case Holding(snapshot) =>
          if handled {
            workers := workers[id := Working(snapshot)];
            steps := steps[id := StepRunning];
          } else {
            workers := workers[id := Settling(StepFailed, None)];
          }
        case Working(_) =>
          match outcome {
            case Returned(result) => workers := workers[id := Settling(StepSucceeded, Some(result))];
            case Errored(isCancel) =>
              var status := StepFailed;
              if isCancel || cancelled {
                status := StepCancelled;
              }
              workers := workers[id := Settling(status, None)];
          }
        case Settling(status, result) =>
          steps := steps[id := status];
          workers := workers[id := Worker.Settled(status, result)];
        case Settled(_, result) =>
          match result {
            case Some(r) => published := published[id := r];
            case None => failed := true;
          }
          workers := workers[id := Exited];
      }
    }

    /** False stands for `ErrNotRunning`: the cancel function is there until the run is closed. */
    method RequestCancel() returns (ok: bool)
      requires Valid()
      modifies this`cancelled, this`record
      ensures Valid() && ok == !phase.Closed? && cancelled == (old(cancelled) || ok)
    {
      hide IsRun;
      ok := !phase.Closed?;
      if ok {
        Note(Action.Cancel);
        cancelled := true;
      }
    }

    /** `Shutdown` cancels the context from which the contexts of all runs are made. */
    method RequestShutdown()
      requires Valid() && !phase.Closed?
      modifies this`cancelled, this`shutdown, this`record
      ensures Valid() && cancelled && shutdown
    {
      hide IsRun;
      Note(Action.Shutdown);
      shutdown := true;
      cancelled := true;
    }

    /** What may happen between any two stretches; a repeated request changes nothing. */
    method Requests()
      requires Valid() && !phase.Closed?
      modifies this`cancelled, this`shutdown, this`record
      ensures Valid() && WorkLeft(Now()) == old(WorkLeft(Now()))
    {
      hide IsRun, AtLeast;
      if * {
        var _ := RequestCancel();
      }
      if * {
        RequestShutdown();
      }
    }

    /** `wg.Wait`: the level's goroutines go on in any order until all are through. */
    method WaitForLevel()
      requires Valid() && InBounds() && phase.InLevel?
      modifies this
      ensures Valid() && InBounds() && phase == old(phase)
      ensures forall id | id in workers :: workers[id].Exited?
    {
      hide IsRun, WorkLeft;
      var unfinished := set id | id in workers && !workers[id].Exited?;
      while unfinished != {}
        invariant Valid() && InBounds() && phase == old(phase)
        invariant unfinished == set id | id in workers && !workers[id].Exited?
        decreases WorkLeft(Now())
      {
        var id :| id in unfinished;
        var outcome: Outcome := *;
        Advance(id, outcome);
        Requests();
        unfinished := set i | i in workers && !workers[i].Exited?;
      }
      forall id | id in workers ensures workers[id].Exited? {
        assert id in workers && !workers[id].Exited? ==> id in unfinished;
      }
    }

    /** Cancellation is looked at before failure; else the loop goes on to the next level with something to run. */
    method CloseLevel()
      requires Valid() && InBounds() && phase.InLevel? && forall id | id in workers :: workers[id].Exited?
      modifies this
      ensures Valid() && InBounds() && Now() == Apply(plan, old(Now()), EndLevel)
      ensures PhasesLeft(plan, Now()) < old(PhasesLeft(plan, Now())) && (phase.InLevel? || phase.Skipping?)
    {
      hide IsRun, WorkLeft;
      Note(EndLevel);
      if cancelled {
        var outcome := RunCancelled;
        if shutdown {
          outcome := RunInterrupted;
        }
        phase := Skipping(outcome, StepCancelled);
        return;
      }
      if failed {
        phase := Skipping(RunFailed, StepSkipped);
        return;
      }
      EnterLowersPhase(plan, Now(), phase.k + 1);
      EnterFrom(phase.k + 1);
    }

    /** The rows that are still pending get the mark. */
    method MarkPending()
      requires Valid() && phase.Skipping?
      modifies this`phase, this`steps, this`record
      ensures Valid() && phase == Finishing(old(phase.outcome))
    {
      hide IsRun, Enter;
      var mark := phase.mark;
      Note(SkipPending);
      steps := map id | id in steps :: if steps[id].StepPending? then mark else steps[id];
      phase := Finishing(phase.outcome);
    }

    /** The row of the run is written. */
    method WriteOutcome()
      requires Valid() && phase.Finishing?
      modifies this`phase, this`runStatus, this`record
      ensures Valid() && phase == Written && runStatus == old(phase.outcome)
    {
      hide IsRun, Enter;
      Note(FinishRun);
      runStatus := phase.outcome;
      phase := Written;
    }

    /** Both writes, and then the cancel function goes. */
    method CloseRun()
      requires Valid() && phase.Skipping?
      modifies this
      ensures Valid() && phase == Closed && runStatus == old(phase.outcome)
    {
      hide IsRun, Enter, WorkLeft;
      MarkPending();
      Requests();
      WriteOutcome();
      Requests();
      Note(Unregister);
      phase := Closed;
    }

    /**
     `execute`, whatever the handlers return, in whatever order the goroutines get on, and whenever somebody asks
     to stop: the run ends, and for the plan of an accepted graph it ends well.
     */
    method Execute()
      requires Valid() && Now() == Init(plan)
      modifies this
      ensures Valid() && phase.Closed?
      ensures (exists rank :: Sound(plan, rank)) ==> WellEnded(plan, Now())
      ensures (exists rank :: Sound(plan, rank)) ==> forall id | id in StepIds(plan.graph) ::
        && id in steps
        && (steps[id].StepSucceeded? <==> Succeeds(record, |record.acts|, id))
        && (steps[id].StepFailed? <==> Fails(record, |record.acts|, id))
    {
      hide IsRun, WorkLeft, Sound, WellEnded, Succeeds, Fails, IsStopped, Silent;
      Requests();
      Note(Begin);
      runStatus := RunRunning;
      EnterLowersPhase(plan, Now(), 0);
      EnterFrom(0);
      while phase.InLevel?
        invariant Valid() && InBounds() && (phase.InLevel? || phase.Skipping?)
        decreases PhasesLeft(plan, Now())
      {
        Requests();
        WaitForLevel();
        CloseLevel();
      }
      Requests();
      CloseRun();
      if rank :| Sound(plan, rank) {
        ClosedRunIsSettled(plan, rank, record, |record.acts|);
        forall id | id in StepIds(plan.graph)
          ensures id in steps && (steps[id].StepSucceeded? <==> Succeeds(record, |record.acts|, id))
          ensures steps[id].StepFailed? <==> Fails(record, |record.acts|, id)
        {
          StepEndMeaning(plan, rank, record, |record.acts|, id);
        }
      }
    }
  }
}
