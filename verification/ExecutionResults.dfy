/**
 Where the values of a run come from: what a handler returned is what later steps are given, and what became of
 its step is what the row of the step says. Everything is told from the actions of the run.
 */
module ExecutionResults {
  import opened Wrappers
  import opened Graphs
  import Levelling
  import opened Template
  import opened Execution

  // ----- the ledger

  /** What has been heard of a step: it has no handler, or its handler has returned, perhaps after a stop. */
  datatype Told = Refused | Answered(outcome: Outcome, stopped: bool)

  function Tell(told: map<string, Told>, s: State, a: Action): map<string, Told> {
    match a
    case Refuse(id) => told[id := Refused]
    case HandlerReturns(id, outcome) => told[id := Answered(outcome, s.cancelled)]
    case _ => told
  }

  function ToldBy(h: History, i: nat): map<string, Told>
    requires i <= |h.acts| < |h.states|
  {
    if i == 0 then map[] else Tell(ToldBy(h, i - 1), h.states[i - 1], h.acts[i - 1])
  }

  /** What is in the ledger has happened. */
  lemma {:induction false} ToldHappened(h: History, i: nat, id: string) returns (j: nat)
    requires i <= |h.acts| < |h.states| && id in ToldBy(h, i)
    ensures j < i
    ensures match ToldBy(h, i)[id]
      case Refused => h.acts[j] == Refuse(id)
      case Answered(outcome, stopped) => h.acts[j] == HandlerReturns(id, outcome) && stopped == h.states[j].cancelled
  {
    var a := h.acts[i - 1];
    if a == Refuse(id) || (a.HandlerReturns? && a.id == id) {
      j := i - 1;
    } else {
      j := ToldHappened(h, i - 1, id);
    }
  }

  predicate Speaks(a: Action, id: string) {
    a == Refuse(id) || (a.HandlerReturns? && a.id == id)
  }

  function EndOf(t: Told): StepStatus {
    match t
    case Refused => StepFailed
    case Answered(Returned(_), _) => StepSucceeded
    case Answered(Errored(isCancel), stopped) => if isCancel || stopped then StepCancelled else StepFailed
  }

  function ResultOf(t: Told): Option<StepResult> {
    if t.Answered? && t.outcome.Returned? then Some(t.outcome.result) else None
  }

  predicate Gave(told: map<string, Told>, v: string, r: StepResult) {
    v in told && ResultOf(told[v]) == Some(r)
  }

  function MarkOf(outcome: RunStatus): StepStatus {
    if outcome.RunCancelled? || outcome.RunInterrupted? then StepCancelled else StepSkipped
  }

  /** A step that has not been heard of is open, or got its mark when the run was closed. */
  predicate SilentFits(s: State, id: string)
    requires id in s.steps
  {
    && (match s.phase
        case Finishing(outcome) => s.steps[id] == MarkOf(outcome)
        case Written => s.steps[id] == MarkOf(s.run)
        case Closed => s.steps[id] == MarkOf(s.run)
        case _ => s.steps[id].StepPending? || s.steps[id].StepRunning?)
    && (s.phase.InLevel? && id in s.workers ==>
          s.workers[id].Spawned? || s.workers[id].Holding? || s.workers[id].Working?)
  }

  /** A step that has been heard of ends as told, at once or when its goroutine comes to write it. */
  predicate ToldFits(s: State, id: string, t: Told)
    requires id in s.steps
  {
    if s.phase.InLevel? && id in s.workers then
      match s.workers[id]
      case Settling(status, result) => status == EndOf(t) && result == ResultOf(t)
      case Settled(status, result) => status == EndOf(t) && result == ResultOf(t) && s.steps[id] == EndOf(t)
      case Exited => s.steps[id] == EndOf(t)
      case _ => false
    else s.steps[id] == EndOf(t)
  }

  predicate RowFits(s: State, told: map<string, Told>, id: string)
    requires id in s.steps
  {
    if id in told then ToldFits(s, id, told[id]) else SilentFits(s, id)
  }

  ghost predicate RowsFit(s: State, told: map<string, Told>) {
    && told.Keys <= s.steps.Keys
    && forall id | id in s.steps :: RowFits(s, told, id)
  }

  ghost predicate AllGave(told: map<string, Told>, results: map<string, StepResult>) {
    forall v | v in results :: Gave(told, v, results[v])
  }

  ghost predicate ValuesFit(s: State, told: map<string, Told>) {
    && AllGave(told, s.published)
    && forall id | s.phase.InLevel? && id in s.workers ::
         match s.workers[id]
         case Holding(snapshot) => AllGave(told, snapshot)
         case Working(snapshot) => AllGave(told, snapshot)
         case _ => true
  }

  // ----- every step keeps the ledger

  lemma SpeakerIsNew(p: Plan, s: State, a: Action, told: map<string, Told>)
    requires RowsFit(s, told) && Enabled(p, s, a) && (a.Refuse? || a.HandlerReturns?)
    ensures a.id !in told
  {
  }

  lemma TellKeepsGave(told: map<string, Told>, s: State, a: Action, results: map<string, StepResult>)
    requires AllGave(told, results) && (a.Refuse? || a.HandlerReturns? ==> a.id !in told)
    ensures AllGave(Tell(told, s, a), results)
  {
  }

  lemma OwnStepKeepsRow(p: Plan, s: State, a: Action, told: map<string, Told>)
    requires Enabled(p, s, a) && IsWorkerAction(a) && RowFits(s, told, a.id)
    ensures a.id in Apply(p, s, a).steps && RowFits(Apply(p, s, a), Tell(told, s, a), a.id)
  {
  }

  lemma StepLeavesOthers(p: Plan, s: State, a: Action)
    requires Enabled(p, s, a) && IsWorkerAction(a)
    ensures var t := Apply(p, s, a);
      && t.phase == s.phase && t.run == s.run && t.steps.Keys == s.steps.Keys && t.workers.Keys == s.workers.Keys
      && (forall id | id in s.steps && id != a.id :: t.steps[id] == s.steps[id])
      && (forall id | id in s.workers && id != a.id :: t.workers[id] == s.workers[id])
      && a.id in s.steps
  {
    hide HasHandler, Enter, Settle;
  }

  lemma TellLeavesOthers(told: map<string, Told>, s: State, a: Action, id: string)
    requires IsWorkerAction(a) && id != a.id
    ensures id in told <==> id in Tell(told, s, a)
    ensures id in told ==> told[id] == Tell(told, s, a)[id]
  {
  }

  lemma OtherRowFits(s: State, t: State, told: map<string, Told>, told': map<string, Told>, id: string)
    requires id in s.steps && RowFits(s, told, id) && t.phase == s.phase && t.run == s.run && id in t.steps
    requires t.steps[id] == s.steps[id] && (id in told <==> id in told') && (id in told ==> told[id] == told'[id])
    requires (id in s.workers <==> id in t.workers) && (id in s.workers ==> s.workers[id] == t.workers[id])
    ensures RowFits(t, told', id)
  {
  }

  lemma WorkerStepKeepsRows(p: Plan, s: State, a: Action, told: map<string, Told>)
    requires RowsFit(s, told) && Enabled(p, s, a) && IsWorkerAction(a)
    ensures RowsFit(Apply(p, s, a), Tell(told, s, a))
  {
    StepLeavesOthers(p, s, a);
    OwnStepKeepsRow(p, s, a, told);
    var t, told' := Apply(p, s, a), Tell(told, s, a);
    hide Apply, Enabled, RowFits, Tell;
    forall id | id in t.steps ensures RowFits(t, told', id) {
      if id != a.id {
        TellLeavesOthers(told, s, a, id);
        OtherRowFits(s, t, told, told', id);
      }
    }
    TellKeepsKeys(told, s, a);
  }

  lemma TellKeepsKeys(told: map<string, Told>, s: State, a: Action)
    requires IsWorkerAction(a)
    ensures Tell(told, s, a).Keys <= told.Keys + {a.id}
  {
  }

  lemma WorkerStepKeepsValues(p: Plan, s: State, a: Action, told: map<string, Told>)
    requires RowsFit(s, told) && ValuesFit(s, told) && Enabled(p, s, a) && IsWorkerAction(a)
    ensures ValuesFit(Apply(p, s, a), Tell(told, s, a))
  {
    if a.Refuse? || a.HandlerReturns? {
      SpeakerIsNew(p, s, a, told);
    }
    var t, told' := Apply(p, s, a), Tell(told, s, a);
    TellKeepsGave(told, s, a, s.published);
    if a.Report? {
      assert a.id in told && ToldFits(s, a.id, told[a.id]);
    }
    forall id | id in t.workers && (t.workers[id].Holding? || t.workers[id].Working?)
      ensures AllGave(told', t.workers[id].snapshot)
    {
      if id != a.id || a.MarkStepRunning? {
        TellKeepsGave(told, s, a, t.workers[id].snapshot);
      }
    }
  }

  /** Who has been heard of has its end, and the others wait. */
  ghost predicate AllOver(s: State, told: map<string, Told>) {
    forall id | id in s.steps :: if id in told then s.steps[id] == EndOf(told[id]) else s.steps[id].StepPending?
  }

  /** A new level is worked on by steps that have not been heard of. */
  lemma EnterKeepsLedger(p: Plan, rank: map<string, nat>, s: State, k: nat, told: map<string, Told>)
    requires k <= |p.levels| && told.Keys <= s.steps.Keys && s.steps.Keys == StepIds(p.graph) && s.steps.Keys <= rank.Keys
    requires AllOver(s, told) && AllGave(told, s.published) && Inv(p, rank, Enter(p, s, k))
    ensures RowsFit(Enter(p, s, k), told) && ValuesFit(Enter(p, s, k), told)
  {
    var t := Enter(p, s, k);
    EnterChanges(p, s, k);
    if t.phase.InLevel? {
      forall id | id in t.workers ensures t.workers[id].Spawned? && id in t.steps && t.steps[id].StepPending? {
        assert id in RankIds(t.steps.Keys, rank, t.phase.k);
        assert WorkerInv(t, rank, t.phase.k, id);
      }
    }
  }

  lemma EnterChanges(p: Plan, s: State, k: nat)
    requires k <= |p.levels|
    ensures var t := Enter(p, s, k);
      && t.steps == s.steps && t.published == s.published && (t.phase.InLevel? || t.phase.Skipping?)
      && (t.phase.InLevel? ==> forall id | id in t.workers :: t.workers[id].Spawned?)
    decreases |p.levels| - k
  {
  }

  lemma PendingIsSilent(s: State, told: map<string, Told>, id: string)
    requires id in s.steps && s.steps[id].StepPending? && !s.phase.InLevel? && RowFits(s, told, id)
    ensures id !in told
  {
  }

  lemma BeginKeepsLedger(p: Plan, rank: map<string, nat>, s: State, told: map<string, Told>)
    requires Sound(p, rank) && Inv(p, rank, s) && Enabled(p, s, Begin) && RowsFit(s, told) && ValuesFit(s, told)
    ensures RowsFit(Apply(p, s, Begin), told) && ValuesFit(Apply(p, s, Begin), told)
  {
    BeginKeepsInv(p, rank, s);
    hide Sound, Enter, RowFits;
    forall id | id in s.steps ensures id !in told && s.steps[id].StepPending? {
      PendingIsSilent(s, told, id);
    }
    EnterKeepsLedger(p, rank, s.(run := RunRunning), 0, told);
  }

  /** When all goroutines of a level are through, who has been heard of has its end, and the others wait. */
  lemma LevelOverRow(p: Plan, rank: map<string, nat>, s: State, told: map<string, Told>, id: string)
    requires Inv(p, rank, s) && Enabled(p, s, EndLevel) && id in s.steps && RowFits(s, told, id)
    ensures if id in told then s.steps[id] == EndOf(told[id]) else s.steps[id].StepPending?
  {
    if rank[id] == s.phase.k {
      LevelIsOver(p, rank, s, id);
      assert id in s.workers;
    }
  }

  lemma InvKeys(p: Plan, rank: map<string, nat>, s: State)
    requires Inv(p, rank, s)
    ensures s.steps.Keys == StepIds(p.graph) && s.steps.Keys <= rank.Keys
  {
  }

  lemma LevelOverRows(p: Plan, rank: map<string, nat>, s: State, told: map<string, Told>)
    requires Inv(p, rank, s) && Enabled(p, s, EndLevel) && RowsFit(s, told)
    ensures AllOver(s, told)
  {
    hide Inv, Enabled, RowFits, EndOf;
    forall id | id in s.steps ensures if id in told then s.steps[id] == EndOf(told[id]) else s.steps[id].StepPending? {
      LevelOverRow(p, rank, s, told, id);
    }
  }

  lemma StoppedLevelFits(s: State, outcome: RunStatus, mark: StepStatus, told: map<string, Told>)
    requires RowsFit(s, told) && ValuesFit(s, told) && AllOver(s, told)
    ensures RowsFit(s.(phase := Skipping(outcome, mark)), told) && ValuesFit(s.(phase := Skipping(outcome, mark)), told)
  {
  }

  lemma EndLevelKeepsLedger(p: Plan, rank: map<string, nat>, s: State, told: map<string, Told>)
    requires Sound(p, rank) && Inv(p, rank, s) && Enabled(p, s, EndLevel) && RowsFit(s, told) && ValuesFit(s, told)
    ensures RowsFit(Apply(p, s, EndLevel), told) && ValuesFit(Apply(p, s, EndLevel), told)
  {
    hide Sound, Enter, Inv, RowsFit, ValuesFit, AllOver;
    LevelOverRows(p, rank, s, told);
    if s.cancelled {
      StoppedLevelFits(s, if s.shutdown then RunInterrupted else RunCancelled, StepCancelled, told);
    } else if s.failed {
      StoppedLevelFits(s, RunFailed, StepSkipped, told);
    } else {
      StepKeepsInv(p, rank, s, EndLevel);
      InvKeys(p, rank, s);
      LedgerParts(s, told);
      EnterKeepsLedger(p, rank, s, s.phase.k + 1, told);
    }
  }

  lemma LedgerParts(s: State, told: map<string, Told>)
    requires RowsFit(s, told) && ValuesFit(s, told)
    ensures told.Keys <= s.steps.Keys && AllGave(told, s.published)
  {
  }

  lemma CloseKeepsLedger(p: Plan, rank: map<string, nat>, s: State, a: Action, told: map<string, Told>)
    requires Inv(p, rank, s) && Enabled(p, s, a) && (a.SkipPending? || a.FinishRun? || a.Unregister?)
    requires RowsFit(s, told) && ValuesFit(s, told)
    ensures RowsFit(Apply(p, s, a), told) && ValuesFit(Apply(p, s, a), told)
  {
    var t := Apply(p, s, a);
    forall id | id in t.steps ensures RowFits(t, told, id) {
      assert RowFits(s, told, id);
    }
  }

  lemma RequestKeepsLedger(p: Plan, s: State, a: Action, told: map<string, Told>)
    requires Enabled(p, s, a) && (a.Cancel? || a.Shutdown?) && RowsFit(s, told) && ValuesFit(s, told)
    ensures RowsFit(Apply(p, s, a), told) && ValuesFit(Apply(p, s, a), told)
  {
    var t := Apply(p, s, a);
    forall id | id in t.steps ensures RowFits(t, told, id) {
      assert RowFits(s, told, id);
    }
  }

  lemma StepKeepsLedger(p: Plan, rank: map<string, nat>, s: State, a: Action, told: map<string, Told>)
    requires Sound(p, rank) && Inv(p, rank, s) && Enabled(p, s, a) && RowsFit(s, told) && ValuesFit(s, told)
    ensures RowsFit(Apply(p, s, a), Tell(told, s, a)) && ValuesFit(Apply(p, s, a), Tell(told, s, a))
  {
    hide Sound, Inv, Apply, Enabled, RowsFit, ValuesFit;
    if IsWorkerAction(a) {
      WorkerStepKeepsRows(p, s, a, told);
      WorkerStepKeepsValues(p, s, a, told);
    } else {
      match a
      case Begin => BeginKeepsLedger(p, rank, s, told);
      case EndLevel => EndLevelKeepsLedger(p, rank, s, told);
      case Cancel => RequestKeepsLedger(p, s, a, told);
      case Shutdown => RequestKeepsLedger(p, s, a, told);
      case _ => CloseKeepsLedger(p, rank, s, a, told);
    }
  }

  lemma RunHas(p: Plan, h: History)
    requires IsRun(p, h)
    ensures |h.states| == |h.acts| + 1
  {
  }

  /** In every run the rows and the values are those of the ledger. */
  lemma {:induction false} RunKeepsLedger(p: Plan, rank: map<string, nat>, h: History, i: nat)
    requires Sound(p, rank) && IsRun(p, h) && i < |h.states|
    ensures i <= |h.acts| < |h.states|
    ensures RowsFit(h.states[i], ToldBy(h, i)) && ValuesFit(h.states[i], ToldBy(h, i))
  {
    hide Sound, Inv, Apply, Enabled, Tell;
    if i > 0 {
      StepOf(p, h, i - 1);
      hide RowsFit, ValuesFit;
      RunKeepsInv(p, rank, h, i - 1);
      RunKeepsLedger(p, rank, h, i - 1);
      StepKeepsLedger(p, rank, h.states[i - 1], h.acts[i - 1], ToldBy(h, i - 1));
    }
  }

  // ----- the results that steps are given

  ghost predicate HasSnapshot(s: State, id: string, snapshot: map<string, StepResult>) {
    s.phase.InLevel? && id in s.workers && (s.workers[id] == Holding(snapshot) || s.workers[id] == Working(snapshot))
  }

  /** What a step is given as the result of another is what that one's handler returned, earlier in the run. */
  lemma SnapshotHoldsResults(p: Plan, rank: map<string, nat>, h: History, i: nat, id: string,
                             snapshot: map<string, StepResult>, v: string) returns (j: nat)
    requires Sound(p, rank) && IsRun(p, h) && i < |h.states| && HasSnapshot(h.states[i], id, snapshot) && v in snapshot
    ensures j < i <= |h.acts| && h.acts[j] == HandlerReturns(v, Returned(snapshot[v]))
  {
    hide Sound, IsRun, RowsFit;
    RunKeepsLedger(p, rank, h, i);
    assert AllGave(ToldBy(h, i), snapshot);
    j := ToldHappened(h, i, v);
  }

  lemma {:induction false} ToldStays(p: Plan, rank: map<string, nat>, h: History, j: nat, i: nat, id: string)
    requires Sound(p, rank) && IsRun(p, h) && j < i <= |h.acts| && Speaks(h.acts[j], id)
    ensures |h.acts| < |h.states| && id in ToldBy(h, i)
  {
    hide Sound, Apply, Enabled;
    StepOf(p, h, i - 1);
    if j < i - 1 {
      ToldStays(p, rank, h, j, i - 1, id);
    }
  }

  /** And there is only one such return: a handler is called once. */
  lemma HandlersReturnOnce(p: Plan, rank: map<string, nat>, h: History, j: nat, k: nat, id: string)
    requires Sound(p, rank) && IsRun(p, h) && j < |h.acts| && k < |h.acts|
    requires Speaks(h.acts[j], id) && Speaks(h.acts[k], id)
    ensures j == k
  {
    hide Sound, Apply;
    if j != k {
      var first, last := if j < k then j else k, if j < k then k else j;
      StepOf(p, h, last);
      RunKeepsLedger(p, rank, h, last);
      ToldStays(p, rank, h, first, last, id);
      SpeakerIsNew(p, h.states[last], h.acts[last], ToldBy(h, last));
      assert false;
    }
  }

  // ----- who is called

  /** A goroutine works only for a kind that has a handler. */
  ghost predicate WorksWithHandler(p: Plan, s: State) {
    s.phase.InLevel? ==> forall id | id in s.workers && s.workers[id].Working? :: HasHandler(p, id)
  }

  lemma StepKeepsHandlers(p: Plan, s: State, a: Action)
    requires Enabled(p, s, a) && WorksWithHandler(p, s)
    ensures WorksWithHandler(p, Apply(p, s, a))
  {
    hide HasHandler, Enter;
    if a.Begin? {
      EnterChanges(p, s.(run := RunRunning), 0);
    } else if a.EndLevel? {
      EnterChanges(p, s, s.phase.k + 1);
    }
  }

  lemma {:induction false} RunKeepsHandlers(p: Plan, h: History, i: nat)
    requires IsRun(p, h) && i < |h.states|
    ensures WorksWithHandler(p, h.states[i])
  {
    hide Apply, Enabled;
    RunHas(p, h);
    if i > 0 {
      StepOf(p, h, i - 1);
      hide IsRun, WorksWithHandler;
      RunKeepsHandlers(p, h, i - 1);
      StepKeepsHandlers(p, h.states[i - 1], h.acts[i - 1]);
    }
  }

  /** A step is refused exactly when its kind has no handler: one that is refused has none, and one that returns has. */
  lemma HandlersAreThere(p: Plan, rank: map<string, nat>, h: History, j: nat, n: Node)
    requires Sound(p, rank) && IsRun(p, h) && j < |h.acts| && n in p.graph.nodes
    ensures h.acts[j] == Refuse(n.id) ==> n.kind !in p.handlers
    ensures h.acts[j].HandlerReturns? && h.acts[j].id == n.id ==> n.kind in p.handlers
  {
    StepOf(p, h, j);
    RunKeepsHandlers(p, h, j);
    hide IsRun, Apply, Levelling.IsRanking;
    FindsOnlyOne(p.graph, n);
  }

  lemma FindsOnlyOne(g: Graph, n: Node)
    requires g.UniqueIds() && n in g.nodes
    ensures g.Find(n.id) == Some(n)
  {
    var m := g.Find(n.id).value;
    var i :| 0 <= i < |g.nodes| && g.nodes[i] == n;
    var j :| 0 <= j < |g.nodes| && g.nodes[j] == m;
  }

  // ----- what becomes of a step

  ghost predicate Silent(h: History, i: nat, id: string)
    requires i <= |h.acts|
  {
    forall j | 0 <= j < i :: !Speaks(h.acts[j], id)
  }

  ghost predicate Succeeds(h: History, i: nat, id: string)
    requires i <= |h.acts|
  {
    exists j, r :: 0 <= j < i && h.acts[j] == HandlerReturns(id, Returned(r))
  }

  /** The error is a cancellation, or the run had been asked to stop when it was returned. */
  ghost predicate IsStopped(h: History, i: nat, id: string)
    requires i <= |h.acts| < |h.states|
  {
    exists j, isCancel ::
      0 <= j < i && h.acts[j] == HandlerReturns(id, Errored(isCancel)) && (isCancel || h.states[j].cancelled)
  }

  ghost predicate Fails(h: History, i: nat, id: string)
    requires i <= |h.acts| < |h.states|
  {
    || (exists j :: 0 <= j < i && h.acts[j] == Refuse(id))
    || (exists j :: 0 <= j < i && h.acts[j] == HandlerReturns(id, Errored(false)) && !h.states[j].cancelled)
  }

  lemma HeardIsNotSilent(p: Plan, rank: map<string, nat>, h: History, i: nat, id: string)
    requires Sound(p, rank) && IsRun(p, h) && i <= |h.acts|
    ensures |h.acts| < |h.states| && (id in ToldBy(h, i) <==> !Silent(h, i, id))
  {
    hide Sound, IsRun;
    RunHas(p, h);
    if id in ToldBy(h, i) {
      var j := ToldHappened(h, i, id);
      assert Speaks(h.acts[j], id);
    }
    if !Silent(h, i, id) {
      var j :| 0 <= j < i && Speaks(h.acts[j], id);
      ToldStays(p, rank, h, j, i, id);
    }
  }

  /** The one thing that was heard of the step decides between the three. */
  lemma ToldDecides(p: Plan, rank: map<string, nat>, h: History, i: nat, id: string)
    requires Sound(p, rank) && IsRun(p, h) && i <= |h.acts| < |h.states| && id in ToldBy(h, i)
    ensures EndOf(ToldBy(h, i)[id]).StepSucceeded? <==> Succeeds(h, i, id)
    ensures EndOf(ToldBy(h, i)[id]).StepFailed? <==> Fails(h, i, id)
    ensures EndOf(ToldBy(h, i)[id]).StepCancelled? <==> IsStopped(h, i, id)
  {
    hide Sound, IsRun, ToldBy;
    var j := ToldHappened(h, i, id);
    forall k | 0 <= k < i && Speaks(h.acts[k], id) ensures k == j {
      HandlersReturnOnce(p, rank, h, j, k, id);
    }
  }

  /** At the end the row of a step says what its handler did, and of those never heard of what the run did. */
  lemma StepEndMeaning(p: Plan, rank: map<string, nat>, h: History, i: nat, id: string)
    requires Sound(p, rank) && IsRun(p, h) && i < |h.states| && Over(h.states[i]) && id in StepIds(p.graph)
    ensures i <= |h.acts| && id in h.states[i].steps
    ensures h.states[i].steps[id].StepSucceeded? <==> Succeeds(h, i, id)
    ensures h.states[i].steps[id].StepFailed? <==> Fails(h, i, id)
    ensures var stopped := h.states[i].run.RunCancelled? || h.states[i].run.RunInterrupted?;
      && (h.states[i].steps[id].StepCancelled? <==> IsStopped(h, i, id) || (Silent(h, i, id) && stopped))
      && (h.states[i].steps[id].StepSkipped? <==> Silent(h, i, id) && !stopped)
  {
    RunHas(p, h);
    RunKeepsInv(p, rank, h, i);
    InvKeys(p, rank, h.states[i]);
    hide Sound, IsRun, Inv, ToldBy, EndOf;
    RunKeepsLedger(p, rank, h, i);
    HeardIsNotSilent(p, rank, h, i, id);
    assert RowFits(h.states[i], ToldBy(h, i), id);
    if id in ToldBy(h, i) {
      ToldDecides(p, rank, h, i, id);
      EndIsOneOfThree(ToldBy(h, i)[id]);
    } else {
      SilentDecides(h, i, id);
    }
  }

  lemma EndIsOneOfThree(t: Told)
    ensures EndOf(t).StepSucceeded? || EndOf(t).StepFailed? || EndOf(t).StepCancelled?
  {
  }

  lemma SilentDecides(h: History, i: nat, id: string)
    requires i <= |h.acts| < |h.states| && Silent(h, i, id)
    ensures !Succeeds(h, i, id) && !Fails(h, i, id) && !IsStopped(h, i, id)
  {
    forall j | 0 <= j < i ensures !Speaks(h.acts[j], id) {
    }
  }

  // ----- what becomes of the run

  predicate Closing(s: State) {
    s.phase.Skipping? || s.phase.Finishing? || Over(s)
  }

  function OutcomeAt(s: State): RunStatus
    requires Closing(s)
  {
    match s.phase
    case Skipping(outcome, _) => outcome
    case Finishing(outcome) => outcome
    case _ => s.run
  }

  /** The look that closes the run: stopped before failed, and failed before succeeded. */
  ghost predicate Decides(p: Plan, s: State, a: Action, outcome: RunStatus) {
    && (a.Begin? || a.EndLevel?)
    && (outcome.RunInterrupted? <==> a.EndLevel? && s.cancelled && s.shutdown)
    && (outcome.RunCancelled? <==> a.EndLevel? && s.cancelled && !s.shutdown)
    && (outcome.RunFailed? <==> a.EndLevel? && !s.cancelled && SomeStepFailed(s))
    && (outcome.RunSucceeded? <==> (a.Begin? || !s.cancelled) && AllStepsSucceeded(s))
  }

  ghost predicate SomeStepFailed(s: State) {
    exists id :: id in s.steps && (s.steps[id].StepFailed? || s.steps[id].StepCancelled?)
  }

  ghost predicate AllStepsSucceeded(s: State) {
    forall id | id in s.steps :: s.steps[id].StepSucceeded?
  }

  /** When a level is over, the flag of the level stands for a step that failed. */
  lemma FailedMeaning(p: Plan, rank: map<string, nat>, s: State)
    requires Inv(p, rank, s) && Enabled(p, s, EndLevel)
    ensures s.failed <==> SomeStepFailed(s)
  {
    hide WorkerInv, Ordered;
    if id :| id in s.steps && (s.steps[id].StepFailed? || s.steps[id].StepCancelled?) {
      if rank[id] == s.phase.k {
        LevelIsOver(p, rank, s, id);
      }
    }
  }

  lemma SucceededMeaning(p: Plan, rank: map<string, nat>, s: State, outcome: RunStatus, mark: StepStatus)
    requires Inv(p, rank, s) && s.phase == Skipping(outcome, mark) && outcome.RunSucceeded?
    ensures AllStepsSucceeded(s) && !SomeStepFailed(s)
  {
  }

  lemma EndLevelDecides(p: Plan, rank: map<string, nat>, s: State)
    requires Sound(p, rank) && Inv(p, rank, s) && Enabled(p, s, EndLevel) && Closing(Apply(p, s, EndLevel))
    ensures Decides(p, s, EndLevel, OutcomeAt(Apply(p, s, EndLevel)))
  {
    hide Sound, Inv, Enter, SomeStepFailed, AllStepsSucceeded;
    StepKeepsInv(p, rank, s, EndLevel);
    FailedMeaning(p, rank, s);
    FailedIsNotSucceeded(s);
    if !s.cancelled && !s.failed {
      EnterChanges(p, s, s.phase.k + 1);
      EnterSucceeds(p, s, s.phase.k + 1);
      SucceededMeaning(p, rank, Apply(p, s, EndLevel), RunSucceeded, StepSkipped);
      SameSteps(s, Apply(p, s, EndLevel));
    }
  }

  lemma FailedIsNotSucceeded(s: State)
    ensures !(SomeStepFailed(s) && AllStepsSucceeded(s))
  {
  }

  lemma SameSteps(s: State, t: State)
    requires s.steps == t.steps
    ensures SomeStepFailed(s) == SomeStepFailed(t) && AllStepsSucceeded(s) == AllStepsSucceeded(t)
  {
  }

  lemma EnterSucceeds(p: Plan, s: State, k: nat)
    requires k <= |p.levels| && Enter(p, s, k).phase.Skipping?
    ensures Enter(p, s, k).phase == Skipping(RunSucceeded, StepSkipped)
    decreases |p.levels| - k
  {
  }

  lemma BeginDecides(p: Plan, rank: map<string, nat>, s: State)
    requires Sound(p, rank) && Inv(p, rank, s) && Enabled(p, s, Begin) && Closing(Apply(p, s, Begin))
    ensures Decides(p, s, Begin, OutcomeAt(Apply(p, s, Begin)))
  {
    hide Sound, Inv, Enter, SomeStepFailed, AllStepsSucceeded;
    BeginKeepsInv(p, rank, s);
    EnterChanges(p, s.(run := RunRunning), 0);
    EnterSucceeds(p, s.(run := RunRunning), 0);
    SucceededMeaning(p, rank, Apply(p, s, Begin), RunSucceeded, StepSkipped);
    SameSteps(s, Apply(p, s, Begin));
  }

  lemma ClosingGoesOn(p: Plan, s: State, a: Action)
    requires Enabled(p, s, a) && Closing(Apply(p, s, a)) && !a.Begin? && !a.EndLevel?
    ensures Closing(s) && OutcomeAt(s) == OutcomeAt(Apply(p, s, a))
  {
  }

  /** There is one look at the flags that decided what the run's status says. */
  lemma {:induction false} OutcomeMeaning(p: Plan, rank: map<string, nat>, h: History, i: nat) returns (k: nat)
    requires Sound(p, rank) && IsRun(p, h) && i < |h.states| && Closing(h.states[i])
    ensures k < i <= |h.acts| && Decides(p, h.states[k], h.acts[k], OutcomeAt(h.states[i]))
  {
    RunHas(p, h);
    hide Sound, Inv, Apply, Enabled, Decides, OutcomeAt, Closing;
    if i == 0 {
      NothingClosesAtFirst(p);
    } else {
      StepOf(p, h, i - 1);
      RunKeepsInv(p, rank, h, i - 1);
      match h.acts[i - 1]
      case Begin =>
        BeginDecides(p, rank, h.states[i - 1]);
        k := i - 1;
      case EndLevel =>
        EndLevelDecides(p, rank, h.states[i - 1]);
        k := i - 1;
      case _ =>
        ClosingGoesOn(p, h.states[i - 1], h.acts[i - 1]);
        k := OutcomeMeaning(p, rank, h, i - 1);
    }
  }

  lemma NothingClosesAtFirst(p: Plan)
    ensures !Closing(Init(p))
  {
  }
}
