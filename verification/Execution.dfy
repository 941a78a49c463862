/**
 Running a workflow (backend/internal/workflow/executor.go) over the step and run rows of
 backend/internal/workflow/runstore.go.

 Every place where the Go code can be interleaved with another goroutine is one action: taking the context
 snapshot, marking a step, the handler's return, writing the step's end, handing on its result. What a
 handler does is open: it may return any result or error. Store writes succeed.
 */
module Execution {
  import opened Wrappers
  import opened Graphs
  import Levelling
  import opened Template
  import opened Validation

  datatype StepStatus = StepPending | StepRunning | StepSucceeded | StepFailed | StepSkipped | StepCancelled

  datatype RunStatus = RunPending | RunRunning | RunSucceeded | RunFailed | RunCancelled | RunInterrupted

  /** What a handler returns. `isCancel` says that the error wraps `context.Canceled`. */
  datatype Outcome = Returned(result: StepResult) | Errored(isCancel: bool)

  /** Where the goroutine of one step stands. */
  datatype Worker =
    | Spawned
    | Holding(snapshot: map<string, StepResult>)
    | Working(snapshot: map<string, StepResult>)
    | Settling(status: StepStatus, result: Option<StepResult>)
    | Settled(status: StepStatus, result: Option<StepResult>)
    | Exited

  /** Between `Written` and `Closed` the run is over, but its cancel function is still registered. */
  datatype Phase =
    | NotStarted
    | InLevel(k: nat)
    | Skipping(outcome: RunStatus, mark: StepStatus)
    | Finishing(outcome: RunStatus)
    | Written
    | Closed

  datatype State = State(
    phase: Phase,
    run: RunStatus,
    steps: map<string, StepStatus>,
    published: map<string, StepResult>,
    workers: map<string, Worker>,
    failed: bool,
    cancelled: bool,
    shutdown: bool)

  datatype Plan = Plan(graph: Graph, levels: seq<seq<Node>>, handlers: set<NodeKind>)

  datatype Action =
    | Begin
    | TakeSnapshot(id: string)
    | Refuse(id: string)
    | MarkStepRunning(id: string)
    | HandlerReturns(id: string, outcome: Outcome)
    | FinishStep(id: string)
    | Report(id: string)
    | EndLevel
    | SkipPending
    | FinishRun
    | Unregister
    | Cancel
    | Shutdown

  // ----- the plan

  function ExecutableIds(level: seq<Node>): set<string> {
    set n | n in level && Executable(n.kind) :: n.id
  }

  /** One row per node that is not a trigger, written before the run starts. */
  function StepIds(g: Graph): set<string> {
    set n | n in g.nodes && !n.kind.IsTrigger() :: n.id
  }

  predicate HasHandler(p: Plan, id: string) {
    p.graph.Find(id).Some? && p.graph.Find(id).value.kind in p.handlers
  }

  // ----- actions

  function Init(p: Plan): State {
    State(NotStarted, RunPending, map id | id in StepIds(p.graph) :: StepPending, map[], map[], false, false, false)
  }

  /** The next level that has something to run; the others are passed over without a look at the context. */
  function Enter(p: Plan, s: State, k: nat): State
    requires k <= |p.levels|
    decreases |p.levels| - k
  {
    if k == |p.levels| then s.(phase := Skipping(RunSucceeded, StepSkipped))
    else if ExecutableIds(p.levels[k]) * s.steps.Keys == {} then Enter(p, s, k + 1)
    else
      s.(phase := InLevel(k), failed := false,
         workers := map id | id in ExecutableIds(p.levels[k]) * s.steps.Keys :: Spawned)
  }

  predicate Live(s: State, id: string) {
    s.phase.InLevel? && id in s.workers && id in s.steps
  }

  predicate Enabled(p: Plan, s: State, a: Action) {
    match a
    case Begin => s.phase.NotStarted?
    case TakeSnapshot(id) => Live(s, id) && s.workers[id].Spawned?
    case Refuse(id) => Live(s, id) && s.workers[id].Holding? && !HasHandler(p, id)
    case MarkStepRunning(id) => Live(s, id) && s.workers[id].Holding? && HasHandler(p, id)
    case HandlerReturns(id, _) => Live(s, id) && s.workers[id].Working?
    case FinishStep(id) => Live(s, id) && s.workers[id].Settling?
    case Report(id) => Live(s, id) && s.workers[id].Settled?
    case EndLevel => s.phase.InLevel? && s.phase.k < |p.levels| && forall id | id in s.workers :: s.workers[id].Exited?
    case SkipPending => s.phase.Skipping?
    case FinishRun => s.phase.Finishing?
    case Unregister => s.phase.Written?
    case Cancel => !s.phase.Closed?
    case Shutdown => !s.phase.Closed?
  }

  function Settle(s: State, outcome: Outcome): Worker {
    match outcome
    case Returned(result) => Settling(StepSucceeded, Some(result))
    case Errored(isCancel) => Settling(if isCancel || s.cancelled then StepCancelled else StepFailed, None)
  }

  function Apply(p: Plan, s: State, a: Action): State
    requires Enabled(p, s, a)
  {
    match a
    case Begin => Enter(p, s.(run := RunRunning), 0)
    case TakeSnapshot(id) => s.(workers := s.workers[id := Holding(s.published)])
    case Refuse(id) => s.(workers := s.workers[id := Settling(StepFailed, None)])
    case MarkStepRunning(id) =>
      s.(workers := s.workers[id := Working(s.workers[id].snapshot)], steps := s.steps[id := StepRunning])
    case HandlerReturns(id, outcome) => s.(workers := s.workers[id := Settle(s, outcome)])
    case FinishStep(id) =>
      var w := s.workers[id];
      s.(workers := s.workers[id := Settled(w.status, w.result)], steps := s.steps[id := w.status])
    case Report(id) =>
      (match s.workers[id].result
       case Some(r) => s.(workers := s.workers[id := Exited], published := s.published[id := r])
       case None => s.(workers := s.workers[id := Exited], failed := true))
    case EndLevel =>
      // Cancellation is looked at first: a stopped run is not a failed one.
      if s.cancelled then s.(phase := Skipping(if s.shutdown then RunInterrupted else RunCancelled, StepCancelled))
      else if s.failed then s.(phase := Skipping(RunFailed, StepSkipped))
      else Enter(p, s, s.phase.k + 1)
    case SkipPending =>
      s.(phase := Finishing(s.phase.outcome),
         steps := map id | id in s.steps :: if s.steps[id].StepPending? then s.phase.mark else s.steps[id])
    case FinishRun => s.(phase := Written, run := s.phase.outcome)
    case Unregister => s.(phase := Closed)
    case Cancel => s.(cancelled := true)
    case Shutdown => s.(cancelled := true, shutdown := true)
  }

  /** The states of a run and the actions between them. */
  datatype History = History(states: seq<State>, acts: seq<Action>)

  /** All the interleavings: any sequence of actions, each of them possible when its turn comes. */
  ghost predicate IsRun(p: Plan, h: History) {
    && |h.states| == |h.acts| + 1
    && h.states[0] == Init(p)
    && forall i | 0 <= i < |h.acts| ::
         Enabled(p, h.states[i], h.acts[i]) && h.states[i + 1] == Apply(p, h.states[i], h.acts[i])
  }

  lemma StepOf(p: Plan, h: History, i: nat)
    requires IsRun(p, h) && i < |h.acts|
    ensures |h.states| == |h.acts| + 1 && Enabled(p, h.states[i], h.acts[i])
    ensures h.states[i + 1] == Apply(p, h.states[i], h.acts[i])
  {
  }

  // ----- what every reachable state keeps

  /** Plans made of a validated graph: every step has a rank, and every step can be run. */
  ghost predicate Sound(p: Plan, rank: map<string, nat>) {
    && Levelling.IsRanking(p.graph, p.levels, rank)
    && p.graph.UniqueIds() && forall n | n in p.graph.nodes :: KnownKind(n.kind)
  }

  function RankIds(ids: set<string>, rank: map<string, nat>, k: nat): set<string> {
    set id | id in ids && id in rank && rank[id] == k
  }

  predicate Ends(status: StepStatus) {
    status.StepSucceeded? || status.StepFailed? || status.StepCancelled?
  }

  /** A snapshot has the result of every step of the earlier levels, and of steps only. */
  ghost predicate Complete(s: State, rank: map<string, nat>, k: nat, snapshot: map<string, StepResult>)
    requires s.steps.Keys <= rank.Keys
  {
    && (forall id | id in s.steps && rank[id] < k :: id in snapshot)
    && snapshot.Keys <= s.steps.Keys
  }

  ghost predicate WorkerInv(s: State, rank: map<string, nat>, k: nat, id: string)
    requires id in s.workers && id in s.steps && s.steps.Keys <= rank.Keys
  {
    match s.workers[id]
    case Spawned => s.steps[id].StepPending?
    case Holding(snapshot) => s.steps[id].StepPending? && Complete(s, rank, k, snapshot)
    case Working(snapshot) => s.steps[id].StepRunning? && Complete(s, rank, k, snapshot)
    case Settling(status, result) =>
      (s.steps[id].StepPending? || s.steps[id].StepRunning?) && Ends(status) && (result.Some? <==> status.StepSucceeded?)
    case Settled(status, result) =>
      s.steps[id] == status && Ends(status) && (result.Some? <==> status.StepSucceeded?)
    case Exited =>
      Ends(s.steps[id]) && (if s.steps[id].StepSucceeded? then id in s.published else s.failed)
  }

  ghost predicate LevelInv(s: State, rank: map<string, nat>, k: nat)
    requires s.steps.Keys <= rank.Keys
  {
    && s.workers.Keys == RankIds(s.steps.Keys, rank, k)
    && s.published.Keys <= s.steps.Keys
    && (forall id | id in s.steps && rank[id] < k :: s.steps[id].StepSucceeded? && id in s.published)
    && (forall id | id in s.steps && rank[id] > k :: s.steps[id].StepPending?)
    && (forall id | id in s.workers :: WorkerInv(s, rank, k, id))
    && (s.failed ==> exists id :: id in s.steps && (s.steps[id].StepFailed? || s.steps[id].StepCancelled?))
  }

  predicate HasRun(status: StepStatus) {
    status.StepRunning? || status.StepSucceeded? || status.StepFailed?
  }

  /** Whoever has begun has only successes behind it. */
  ghost predicate Ordered(s: State, rank: map<string, nat>)
    requires s.steps.Keys <= rank.Keys
  {
    forall a, b | a in s.steps && b in s.steps && rank[a] < rank[b] && HasRun(s.steps[b]) :: s.steps[a].StepSucceeded?
  }

  /** The outcome a run is about to get fits its steps. */
  ghost predicate Fits(s: State, outcome: RunStatus) {
    match outcome
    case RunSucceeded => forall id | id in s.steps :: s.steps[id].StepSucceeded?
    case RunFailed => exists id :: id in s.steps && (s.steps[id].StepFailed? || s.steps[id].StepCancelled?)
    case RunCancelled => s.cancelled
    case RunInterrupted => s.cancelled && s.shutdown
    case _ => false
  }

  /** The status of the run has been written. */
  predicate Over(s: State) {
    s.phase.Written? || s.phase.Closed?
  }

  ghost predicate NoneRunning(s: State) {
    forall id | id in s.steps :: !s.steps[id].StepRunning?
  }

  ghost predicate NonePending(s: State) {
    forall id | id in s.steps :: !s.steps[id].StepPending?
  }

  ghost predicate Inv(p: Plan, rank: map<string, nat>, s: State) {
    && s.steps.Keys == StepIds(p.graph) && s.steps.Keys <= rank.Keys
    && (s.shutdown ==> s.cancelled)
    && match s.phase
       case NotStarted =>
         s.run.RunPending? && s.published == map[] && forall id | id in s.steps :: s.steps[id].StepPending?
       case InLevel(k) => s.run.RunRunning? && k < |p.levels| && LevelInv(s, rank, k)
       case Skipping(outcome, mark) =>
         s.run.RunRunning? && NoneRunning(s) && Ordered(s, rank) && Fits(s, outcome)
         && mark == (if outcome.RunCancelled? || outcome.RunInterrupted? then StepCancelled else StepSkipped)
       case Finishing(outcome) =>
         s.run.RunRunning? && NoneRunning(s) && NonePending(s) && Ordered(s, rank) && Fits(s, outcome)
       case Written => NoneRunning(s) && NonePending(s) && Ordered(s, rank) && Fits(s, s.run)
       case Closed => NoneRunning(s) && NonePending(s) && Ordered(s, rank) && Fits(s, s.run)
  }

  lemma LevelIsRank(p: Plan, rank: map<string, nat>, k: nat)
    requires Sound(p, rank) && k < |p.levels|
    ensures StepIds(p.graph) <= rank.Keys
    ensures ExecutableIds(p.levels[k]) * StepIds(p.graph) == RankIds(StepIds(p.graph), rank, k)
  {
    hide Levelling.IsRanking;
    Levelling.LevelsPartitionNodes(p.graph, p.levels, rank);
    forall id | id in RankIds(StepIds(p.graph), rank, k) ensures id in ExecutableIds(p.levels[k]) {
      var n :| n in p.graph.nodes && !n.kind.IsTrigger() && n.id == id;
      assert n in p.levels[k];
    }
    forall id | id in ExecutableIds(p.levels[k]) * StepIds(p.graph) ensures id in RankIds(StepIds(p.graph), rank, k) {
      var n :| n in p.levels[k] && Executable(n.kind) && n.id == id;
      assert n in p.graph.nodes;
    }
  }

  /** All levels before `k` are done and nothing after has begun. */
  ghost predicate Between(s: State, rank: map<string, nat>, k: nat)
    requires s.steps.Keys <= rank.Keys
  {
    && s.published.Keys <= s.steps.Keys
    && (forall id | id in s.steps && rank[id] < k :: s.steps[id].StepSucceeded? && id in s.published)
    && (forall id | id in s.steps && rank[id] >= k :: s.steps[id].StepPending?)
  }

  lemma {:induction false} EnterKeepsInv(p: Plan, rank: map<string, nat>, s: State, k: nat)
    requires Sound(p, rank) && k <= |p.levels|
    requires s.steps.Keys == StepIds(p.graph) && s.steps.Keys <= rank.Keys && s.run.RunRunning?
    requires (s.shutdown ==> s.cancelled) && Between(s, rank, k)
    ensures Inv(p, rank, Enter(p, s, k))
    decreases |p.levels| - k
  {
    hide Sound;
    if k == |p.levels| {
      EveryRankIsALevel(p, rank);
    } else {
      LevelIsRank(p, rank, k);
      if ExecutableIds(p.levels[k]) * s.steps.Keys == {} {
        assert forall id | id in s.steps :: rank[id] == k ==> id in RankIds(s.steps.Keys, rank, k);
        EnterKeepsInv(p, rank, s, k + 1);
      } else {
        var s' := Enter(p, s, k);
        forall id | id in s'.workers ensures WorkerInv(s', rank, k, id) {
          assert id in RankIds(s.steps.Keys, rank, k);
        }
      }
    }
  }

  lemma EveryRankIsALevel(p: Plan, rank: map<string, nat>)
    requires Sound(p, rank)
    ensures forall id | id in rank :: rank[id] < |p.levels|
  {
  }

  /** One worker moved: its own row may have changed, results and failures are only added. */
  ghost predicate OnlyMoved(s: State, s': State, id: string) {
    && s.phase.InLevel? && s'.phase == s.phase && s'.run == s.run && s'.cancelled == s.cancelled && s'.shutdown == s.shutdown
    && s'.workers.Keys == s.workers.Keys && s'.steps.Keys == s.steps.Keys && id in s.workers && id in s.steps
    && (forall j | j in s.workers && j != id :: s'.workers[j] == s.workers[j])
    && (forall j | j in s.steps && j != id :: s'.steps[j] == s.steps[j])
    && s.published.Keys <= s'.published.Keys <= s.steps.Keys
    && (s.failed ==> s'.failed)
    && (Ends(s.steps[id]) ==> s'.steps[id] == s.steps[id])
    && (s'.failed && !s.failed ==> s'.steps[id].StepFailed? || s'.steps[id].StepCancelled?)
  }

  lemma MoveKeepsInv(p: Plan, rank: map<string, nat>, s: State, s': State, id: string)
    requires Inv(p, rank, s) && OnlyMoved(s, s', id)
    requires WorkerInv(s', rank, s.phase.k, id)
    ensures Inv(p, rank, s')
  {
    var k := s.phase.k;
    assert id in RankIds(s.steps.Keys, rank, k);
    forall j | j in s'.workers ensures WorkerInv(s', rank, k, j) {
      assert WorkerInv(s, rank, k, j);
    }
    if s'.failed && s.failed {
      var j :| j in s.steps && (s.steps[j].StepFailed? || s.steps[j].StepCancelled?);
      assert s'.steps[j] == s.steps[j];
    }
  }

  predicate IsWorkerAction(a: Action) {
    a.TakeSnapshot? || a.Refuse? || a.MarkStepRunning? || a.HandlerReturns? || a.FinishStep? || a.Report?
  }

  lemma WorkerStepMovesOne(p: Plan, rank: map<string, nat>, s: State, a: Action)
    requires Enabled(p, s, a) && IsWorkerAction(a) && s.steps.Keys <= rank.Keys
    requires WorkerInv(s, rank, s.phase.k, a.id) && s.published.Keys <= s.steps.Keys
    ensures OnlyMoved(s, Apply(p, s, a), a.id)
  {
  }

  lemma WorkerStepKeepsItsInv(p: Plan, rank: map<string, nat>, s: State, a: Action)
    requires Enabled(p, s, a) && IsWorkerAction(a) && s.steps.Keys <= rank.Keys
    requires WorkerInv(s, rank, s.phase.k, a.id) && Complete(s, rank, s.phase.k, s.published)
    ensures OnlyMoved(s, Apply(p, s, a), a.id) ==> WorkerInv(Apply(p, s, a), rank, s.phase.k, a.id)
  {
    var s' := Apply(p, s, a);
    if s'.steps.Keys == s.steps.Keys {
      assert forall m: map<string, StepResult> :: Complete(s, rank, s.phase.k, m) ==> Complete(s', rank, s.phase.k, m);
    }
  }

  lemma WorkerStepKeepsInv(p: Plan, rank: map<string, nat>, s: State, a: Action)
    requires Inv(p, rank, s) && Enabled(p, s, a) && IsWorkerAction(a)
    ensures OnlyMoved(s, Apply(p, s, a), a.id)
    ensures Inv(p, rank, Apply(p, s, a))
  {
    assert WorkerInv(s, rank, s.phase.k, a.id);
    WorkerStepMovesOne(p, rank, s, a);
    WorkerStepKeepsItsInv(p, rank, s, a);
    hide OnlyMoved, WorkerInv, Apply, Enabled;
    MoveKeepsInv(p, rank, s, Apply(p, s, a), a.id);
  }

  lemma SkipKeepsInv(p: Plan, rank: map<string, nat>, s: State)
    requires Inv(p, rank, s) && Enabled(p, s, SkipPending)
    ensures Inv(p, rank, Apply(p, s, SkipPending))
  {
    var s' := Apply(p, s, SkipPending);
    assert forall id | id in s.steps :: HasRun(s'.steps[id]) ==> s'.steps[id] == s.steps[id];
    if s.phase.outcome.RunFailed? {
      var id :| id in s.steps && (s.steps[id].StepFailed? || s.steps[id].StepCancelled?);
      assert s'.steps[id] == s.steps[id];
    }
  }

  lemma LevelIsOver(p: Plan, rank: map<string, nat>, s: State, id: string)
    requires Inv(p, rank, s) && Enabled(p, s, EndLevel) && id in s.steps && rank[id] == s.phase.k
    ensures Ends(s.steps[id])
    ensures if s.steps[id].StepSucceeded? then id in s.published else s.failed
  {
    assert id in s.workers && WorkerInv(s, rank, s.phase.k, id);
  }

  lemma EndLevelStops(p: Plan, rank: map<string, nat>, s: State)
    requires Inv(p, rank, s) && Enabled(p, s, EndLevel) && (s.cancelled || s.failed)
    ensures Inv(p, rank, Apply(p, s, EndLevel))
  {
    InvIsOrdered(p, rank, s);
    hide Ordered, WorkerInv;
    forall id | id in s.steps ensures !s.steps[id].StepRunning? {
      if rank[id] == s.phase.k {
        LevelIsOver(p, rank, s, id);
      }
    }
  }

  lemma EndLevelGoesOn(p: Plan, rank: map<string, nat>, s: State)
    requires Sound(p, rank) && Inv(p, rank, s) && Enabled(p, s, EndLevel) && !s.cancelled && !s.failed
    ensures Inv(p, rank, Apply(p, s, EndLevel))
  {
    hide Sound, WorkerInv;
    forall id | id in s.steps && rank[id] == s.phase.k ensures s.steps[id].StepSucceeded? && id in s.published {
      LevelIsOver(p, rank, s, id);
    }
    EnterKeepsInv(p, rank, s, s.phase.k + 1);
  }

  lemma BeginKeepsInv(p: Plan, rank: map<string, nat>, s: State)
    requires Sound(p, rank) && Inv(p, rank, s) && Enabled(p, s, Begin)
    ensures Inv(p, rank, Apply(p, s, Begin))
  {
    hide Sound;
    EnterKeepsInv(p, rank, s.(run := RunRunning), 0);
  }

  lemma CloseKeepsInv(p: Plan, rank: map<string, nat>, s: State, a: Action)
    requires Inv(p, rank, s) && Enabled(p, s, a) && (a.FinishRun? || a.Unregister?)
    ensures Inv(p, rank, Apply(p, s, a))
  {
    hide WorkerInv;
  }

  lemma RequestKeepsInv(p: Plan, rank: map<string, nat>, s: State, a: Action)
    requires Inv(p, rank, s) && Enabled(p, s, a) && (a.Cancel? || a.Shutdown?)
    ensures Inv(p, rank, Apply(p, s, a))
  {
    var s' := Apply(p, s, a);
    if s.phase.InLevel? {
      forall id | id in s'.workers ensures WorkerInv(s', rank, s.phase.k, id) {
        assert WorkerInv(s, rank, s.phase.k, id);
      }
    }
  }

  lemma InvIsOrdered(p: Plan, rank: map<string, nat>, s: State)
    requires Inv(p, rank, s)
    ensures Ordered(s, rank)
  {
    if s.phase.InLevel? {
      forall a, b | a in s.steps && b in s.steps && rank[a] < rank[b] && HasRun(s.steps[b])
        ensures s.steps[a].StepSucceeded?
      {
        assert rank[b] <= s.phase.k;
      }
    }
  }

  /** Each action keeps the invariant. */
  lemma StepKeepsInv(p: Plan, rank: map<string, nat>, s: State, a: Action)
    requires Sound(p, rank) && Inv(p, rank, s) && Enabled(p, s, a)
    ensures Inv(p, rank, Apply(p, s, a))
  {
    hide Sound, Inv, Apply;
    if IsWorkerAction(a) {
      WorkerStepKeepsInv(p, rank, s, a);
    } else {
      match a
      case Begin => BeginKeepsInv(p, rank, s);
      case EndLevel =>
        if s.cancelled || s.failed {
          EndLevelStops(p, rank, s);
        } else {
          EndLevelGoesOn(p, rank, s);
        }
      case SkipPending => SkipKeepsInv(p, rank, s);
      case Cancel => RequestKeepsInv(p, rank, s, a);
      case Shutdown => RequestKeepsInv(p, rank, s, a);
      case _ => CloseKeepsInv(p, rank, s, a);
    }
  }

  lemma InitInv(p: Plan, rank: map<string, nat>)
    requires Sound(p, rank)
    ensures Inv(p, rank, Init(p))
  {
    assert forall n | n in p.graph.nodes :: n.id in p.graph.Ids();
  }

  lemma {:induction false} RunKeepsInv(p: Plan, rank: map<string, nat>, h: History, i: nat)
    requires Sound(p, rank) && IsRun(p, h) && i < |h.states|
    ensures Inv(p, rank, h.states[i])
  {
    hide Sound, Inv;
    if i == 0 {
      InitInv(p, rank);
    } else {
      RunKeepsInv(p, rank, h, i - 1);
      StepOf(p, h, i - 1);
      StepKeepsInv(p, rank, h.states[i - 1], h.acts[i - 1]);
    }
  }
}
