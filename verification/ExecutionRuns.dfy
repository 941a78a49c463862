/**
 What holds over every run of the executor: order, failure, the end of a run, and the promise of validation
 that the references of an accepted graph resolve.
 */
module ExecutionRuns {
  import opened Counting
  import opened Wrappers
  import opened Graphs
  import Levelling
  import opened Template
  import opened Validation
  import opened Execution
  import opened ExecutionResults
  import opened Rendering

  // ----- the plan of an accepted graph

  /** `execute` computes the levels again; for an accepted graph that cannot fail. */
  method MakePlan(g: Graph, handlers: set<NodeKind>, isJsonObject: string -> bool) returns (plan: Option<Plan>)
    ensures plan.Some? ==> plan.value.graph == g && plan.value.handlers == handlers
    ensures Acceptable(g, isJsonObject) ==> plan.Some? && exists rank :: Sound(plan.value, rank)
  {
    hide Levelling.IsRanking, Levelling.Blocked, HasCycle, FlowAllowed;
    var levels := Levelling.Levels(g);
    AcceptedIsSound(g, isJsonObject);
    match levels {
      case Ok(l) =>
        plan := Some(Plan(g, l, handlers));
        if Acceptable(g, isJsonObject) {
          ghost var rank :| Levelling.IsRanking(g, l, rank);
          assert Sound(plan.value, rank);
        }
      case Err(_) => plan := None;
    }
  }

  lemma AcceptedIsSound(g: Graph, isJsonObject: string -> bool)
    ensures Acceptable(g, isJsonObject) ==>
      g.UniqueIds() && !Levelling.Blocked(g) && forall n | n in g.nodes :: KnownKind(n.kind)
  {
    hide TextAllowed, HoldsText, Levelling.Blocked, HasCycle;
    if Acceptable(g, isJsonObject) {
      forall e | e in g.edges ensures EdgeAllowed(g, e) {
      }
      Levelling.BlockedIsCycle(g);
    }
  }

  // ----- order and failure

  lemma BeforeIsLowerRank(p: Plan, rank: map<string, nat>, a: string, b: string)
    requires Sound(p, rank) && Before(p.graph.edges, a, b) && b in p.graph.Ids()
    ensures a in rank && b in rank && rank[a] < rank[b]
  {
    var path :| PathFrom(p.graph.edges, a, b, path) && |path| >= 2;
    Levelling.RankGrowsAlong(p.graph, p.levels, rank, path);
  }

  /** A step runs only when every step before it in the graph has succeeded, in whatever order things happen. */
  lemma StepsRunAfterTheirAncestors(p: Plan, rank: map<string, nat>, h: History, i: nat, a: string, b: string)
    requires Sound(p, rank) && IsRun(p, h) && i < |h.states|
    requires a in h.states[i].steps && b in h.states[i].steps && Before(p.graph.edges, a, b)
    requires HasRun(h.states[i].steps[b])
    ensures h.states[i].steps[a].StepSucceeded?
  {
    RunKeepsInv(p, rank, h, i);
    InvIsOrdered(p, rank, h.states[i]);
    assert b in p.graph.Ids();
    BeforeIsLowerRank(p, rank, a, b);
  }

  lemma StepKeepsEnds(p: Plan, rank: map<string, nat>, s: State, a: Action, id: string)
    requires Inv(p, rank, s) && Enabled(p, s, a) && id in s.steps && Ends(s.steps[id])
    ensures id in Apply(p, s, a).steps && Apply(p, s, a).steps[id] == s.steps[id]
  {
    if IsWorkerAction(a) {
      WorkerStepKeepsInv(p, rank, s, a);
    } else if a.EndLevel? {
      EnterKeepsSteps(p, s, s.phase.k + 1);
    }
  }

  lemma EnterKeepsSteps(p: Plan, s: State, k: nat)
    requires k <= |p.levels|
    ensures Enter(p, s, k).steps == s.steps
    ensures Enter(p, s, k).cancelled == s.cancelled && Enter(p, s, k).shutdown == s.shutdown
    decreases |p.levels| - k
  {
  }

  lemma {:induction false} EndsStay(p: Plan, rank: map<string, nat>, h: History, i: nat, j: nat, id: string)
    requires Sound(p, rank) && IsRun(p, h) && i <= j < |h.states|
    requires id in h.states[i].steps && Ends(h.states[i].steps[id])
    ensures id in h.states[j].steps && h.states[j].steps[id] == h.states[i].steps[id]
  {
    hide Sound, Inv, Apply, Enabled;
    if i < j {
      EndsStay(p, rank, h, i, j - 1, id);
      RunKeepsInv(p, rank, h, j - 1);
      StepOf(p, h, j - 1);
      StepKeepsEnds(p, rank, h.states[j - 1], h.acts[j - 1], id);
    }
  }

  /** After a failed or cancelled step, no step of a later level ever runs. */
  lemma NothingLaterRunsAfterAFailure(p: Plan, rank: map<string, nat>, h: History, i: nat, j: nat, a: string, b: string)
    requires Sound(p, rank) && IsRun(p, h) && i <= j < |h.states|
    requires a in h.states[i].steps && b in h.states[j].steps && a in rank && b in rank && rank[a] < rank[b]
    requires h.states[i].steps[a].StepFailed? || h.states[i].steps[a].StepCancelled?
    ensures !HasRun(h.states[j].steps[b])
  {
    EndsStay(p, rank, h, i, j, a);
    RunKeepsInv(p, rank, h, j);
    InvIsOrdered(p, rank, h.states[j]);
  }

  /** Nothing is left open, and the status of the run fits its steps. */
  ghost predicate WellEnded(p: Plan, s: State) {
    && (forall id | id in StepIds(p.graph) :: id in s.steps && !s.steps[id].StepPending? && !s.steps[id].StepRunning?)
    && (s.run.RunSucceeded? ==> forall id | id in StepIds(p.graph) :: id in s.steps && s.steps[id].StepSucceeded?)
    && (s.run.RunFailed? ==> exists id :: id in s.steps && (s.steps[id].StepFailed? || s.steps[id].StepCancelled?))
    && (s.run.RunCancelled? || s.run.RunInterrupted? ==> s.cancelled)
    && (s.run.RunInterrupted? ==> s.shutdown)
    && !s.run.RunPending? && !s.run.RunRunning?
  }

  /** What is true of a run that is over. */
  lemma ClosedRunIsSettled(p: Plan, rank: map<string, nat>, h: History, i: nat)
    requires Sound(p, rank) && IsRun(p, h) && i < |h.states| && Over(h.states[i])
    ensures WellEnded(p, h.states[i])
  {
    RunKeepsInv(p, rank, h, i);
  }

  lemma OverStepKeepsRows(p: Plan, s: State, a: Action)
    requires Enabled(p, s, a) && Over(s)
    ensures Over(Apply(p, s, a)) && Apply(p, s, a).run == s.run && Apply(p, s, a).steps == s.steps
  {
  }

  /** A request to stop that still finds the run's cancel function after that changes no status any more. */
  lemma {:induction false} OverRunKeepsItsRows(p: Plan, h: History, i: nat, j: nat)
    requires IsRun(p, h) && i <= j < |h.states| && Over(h.states[i])
    ensures Over(h.states[j]) && h.states[j].run == h.states[i].run && h.states[j].steps == h.states[i].steps
  {
    hide Apply, Enabled, Over;
    if i < j {
      OverRunKeepsItsRows(p, h, i, j - 1);
      StepOf(p, h, j - 1);
      OverStepKeepsRows(p, h.states[j - 1], h.acts[j - 1]);
    }
  }

  // ----- references resolve

  lemma SnapshotHolds(p: Plan, rank: map<string, nat>, h: History, i: nat, id: string,
                      snapshot: map<string, StepResult>, v: string)
    requires Sound(p, rank) && IsRun(p, h) && i < |h.states| && HasSnapshot(h.states[i], id, snapshot)
    requires Before(p.graph.edges, v, id)
    ensures v in snapshot <==> v in StepIds(p.graph)
  {
    RunKeepsInv(p, rank, h, i);
    var k := h.states[i].phase.k;
    assert id in RankIds(h.states[i].steps.Keys, rank, k);
    assert WorkerInv(h.states[i], rank, k, id);
    assert id in p.graph.Ids();
    BeforeIsLowerRank(p, rank, v, id);
  }

  lemma AcceptedTextsAllowed(g: Graph, isJsonObject: string -> bool, n: Node, text: string)
    requires Acceptable(g, isJsonObject) && n in g.nodes && HoldsText(n, text)
    ensures TextAllowed(g, n.id, text)
  {
    hide Structured, TextAllowed, HoldsText, HasCycle;
  }

  /** The text is that field of the result with which the handler of the step returned before state `i`. */
  ghost predicate HandlerGave(h: History, i: nat, id: string, field: string, text: string) {
    exists j, result :: 0 <= j < i && j < |h.acts| && h.acts[j] == HandlerReturns(id, Returned(result))
      && IsFieldOf(result, field, text)
  }

  /**
   The promise of validation: in every run of an accepted graph, when a step is given its context, each
   `steps.X.field` reference in its fields resolves if and only if X is a step, and then to that field of what the
   handler of X returned. A reference to a trigger is accepted but never resolves: triggers leave no result.
   */
  lemma StepReferencesResolve(p: Plan, rank: map<string, nat>, isJsonObject: string -> bool, h: History, i: nat,
                              n: Node, text: string, ref: Ref, snapshot: map<string, StepResult>,
                              input: string, trigger: map<string, string>)
    requires Acceptable(p.graph, isJsonObject) && Sound(p, rank) && IsRun(p, h) && i < |h.states|
    requires n in p.graph.nodes && HoldsText(n, text) && HasSnapshot(h.states[i], n.id, snapshot)
    requires RefsIn(text).Ok? && ref in RefsIn(text).value && ref.root == RootSteps
    ensures Resolve(ref, Context(input, trigger, snapshot)).Ok? <==> ref.node in StepIds(p.graph)
    ensures ref.node in StepIds(p.graph) ==>
      HandlerGave(h, i, ref.node, ref.field, Resolve(ref, Context(input, trigger, snapshot)).value)
    ensures ref.node in p.graph.Ids()
  {
    hide Sound, Acceptable, HoldsText, IsRun, Resolve, ParseAll, Scan, TextAllowed;
    var ctx := Context(input, trigger, snapshot);
    AcceptedTextsAllowed(p.graph, isJsonObject, n, text);
    TextAllowedGives(p.graph, n.id, text, ref);
    SnapshotHolds(p, rank, h, i, n.id, snapshot, ref.node);
    StepReferenceResolves(text, ref, ctx);
    if ref.node in snapshot {
      var j := SnapshotHoldsResults(p, rank, h, i, n.id, snapshot, ref.node);
      assert h.acts[j] == HandlerReturns(ref.node, Returned(snapshot[ref.node]));
    }
  }

  lemma TextAllowedGives(g: Graph, id: string, text: string, ref: Ref)
    requires TextAllowed(g, id, text) && ref in RefsIn(text).value && ref.root == RootSteps
    ensures ref.node in g.Ids() && Before(g.edges, ref.node, id)
  {
    assert RefAllowed(g, id, ref);
  }

  /** So rendering a field of an accepted step never stops on a step that has not run. */
  lemma RenderingNeverMeetsAnUnrunStep(p: Plan, rank: map<string, nat>, isJsonObject: string -> bool, h: History, i: nat,
                                       n: Node, text: string, snapshot: map<string, StepResult>,
                                       input: string, trigger: map<string, string>)
    requires Acceptable(p.graph, isJsonObject) && Sound(p, rank) && IsRun(p, h) && i < |h.states|
    requires n in p.graph.nodes && HoldsText(n, text) && HasSnapshot(h.states[i], n.id, snapshot)
    ensures RefsIn(text).Ok?
    ensures match Bindings(RefsIn(text).value, Context(input, trigger, snapshot))
      case Ok(_) => true
      case Err(StepNotRun(_, node)) => node in p.graph.Ids() && node !in StepIds(p.graph)
      case Err(e) => e.TriggerFieldMissing?
  {
    hide Sound, Acceptable, HoldsText, IsRun, ParseAll, Scan, Bindings, TextAllowed;
    var ctx := Context(input, trigger, snapshot);
    AcceptedTextsAllowed(p.graph, isJsonObject, n, text);
    TextAllowedParses(p.graph, n.id, text);
    if Bindings(RefsIn(text).value, ctx).Err? {
      var ref := UnboundTextHasCulprit(text, ctx);
      if ref.root == RootSteps {
        StepReferencesResolve(p, rank, isJsonObject, h, i, n, text, ref, snapshot, input, trigger);
      }
    }
  }

  lemma TextAllowedParses(g: Graph, id: string, text: string)
    requires TextAllowed(g, id, text)
    ensures RefsIn(text).Ok?
  {
  }

  /** The text of a field with one step reference in it. */
  function AskingFor(before: string, lead: string, id: string, field: string, trail: string, after: string): string {
    before + Braced(lead, StepExpression(id, field), trail) + after
  }

  /** From handler to handler: the text a step is given holds, in place of its reference, what that step returned. */
  lemma StepValueReachesTheText(p: Plan, rank: map<string, nat>, isJsonObject: string -> bool, h: History, i: nat,
                                n: Node, snapshot: map<string, StepResult>, input: string, trigger: map<string, string>,
                                before: string, lead: string, id: string, field: string, trail: string, after: string,
                                r: Result<string, TemplateError>) returns (value: string)
    requires Acceptable(p.graph, isJsonObject) && Sound(p, rank) && IsRun(p, h) && i < |h.states|
    requires n in p.graph.nodes && HoldsText(n, AskingFor(before, lead, id, field, trail, after))
    requires HasSnapshot(h.states[i], n.id, snapshot)
    requires AreSpaces(lead) && AreSpaces(trail) && IsName(id) && Braceless(before) && Braceless(after)
    requires IsStepField(field) && id in StepIds(p.graph)
    requires Rendered(AskingFor(before, lead, id, field, trail, after), Context(input, trigger, snapshot), r)
    ensures r == Ok(before + value + after) && HandlerGave(h, i, id, field, value)
  {
    hide Acceptable, Sound, IsRun, HoldsText, Rendered, Resolve, Braced, StepExpression, HasSnapshot, StepIds;
    hide IsName, AreSpaces, Braceless, ParseAll, Scan, Holes, HandlerGave;
    StepFieldsAreNames(field);
    var text, ctx := AskingFor(before, lead, id, field, trail, after), Context(input, trigger, snapshot);
    var ref := StepReferenceReads(before, lead, id, field, trail, after);
    StepFieldRenders(before, lead, id, field, trail, after, ctx, r);
    StepReferencesResolve(p, rank, isJsonObject, h, i, n, text, ref, snapshot, input, trigger);
    StepReferenceResolves(text, ref, ctx);
    value := Resolve(ref, ctx).value;
  }

  /** A pull request without a branch of its own finds the branch of the one step that pushed. */
  lemma PushedBranchIsInContext(p: Plan, rank: map<string, nat>, isJsonObject: string -> bool, h: History, i: nat,
                                n: Node, snapshot: map<string, StepResult>, source: string)
    requires Acceptable(p.graph, isJsonObject) && Sound(p, rank) && IsRun(p, h) && i < |h.states|
    requires n in p.graph.nodes && NeedsPusher(n) && HasSnapshot(h.states[i], n.id, snapshot)
    requires source in Pushers(p.graph, n.id)
    ensures source in snapshot && HandlerGave(h, i, source, "branch", snapshot[source].branch)
    ensures forall other | other in Pushers(p.graph, n.id) :: other == source
  {
    hide Sound, Acceptable, IsRun;
    SnapshotHolds(p, rank, h, i, n.id, snapshot, source);
    var j := SnapshotHoldsResults(p, rank, h, i, n.id, snapshot, source);
    assert h.acts[j] == HandlerReturns(source, Returned(snapshot[source]));
    forall other | other in Pushers(p.graph, n.id) ensures other == source {
      PushingAncestorIsUnique(p.graph, isJsonObject, n, other, source);
    }
  }

  // ----- every run ends

  function Stage(w: Worker): nat {
    match w
    case Spawned => 5
    case Holding(_) => 4
    case Working(_) => 3
    case Settling(_, _) => 2
    case Settled(_, _) => 1
    case Exited => 0
  }

  function AtLeast(workers: map<string, Worker>, t: nat): set<string> {
    set id | id in workers && Stage(workers[id]) >= t
  }

  function WorkLeft(s: State): nat {
    if s.phase.InLevel? then
      |AtLeast(s.workers, 1)| + |AtLeast(s.workers, 2)| + |AtLeast(s.workers, 3)|
      + |AtLeast(s.workers, 4)| + |AtLeast(s.workers, 5)|
    else 0
  }

  function PhasesLeft(p: Plan, s: State): nat {
    match s.phase
    case NotStarted => |p.levels| + 5
    case InLevel(k) => if k < |p.levels| then |p.levels| - k + 3 else 3
    case Skipping(_, _) => 3
    case Finishing(_) => 2
    case Written => 1
    case Closed => 0
  }

  lemma StageDropsWork(s: State, s': State, id: string)
    requires s.phase.InLevel? && s'.phase.InLevel? && s'.workers.Keys == s.workers.Keys && id in s.workers
    requires forall j | j in s.workers && j != id :: s'.workers[j] == s.workers[j]
    requires Stage(s'.workers[id]) < Stage(s.workers[id])
    ensures WorkLeft(s') < WorkLeft(s)
  {
    var drop := Stage(s.workers[id]);
    forall t | 1 <= t <= 5
      ensures |AtLeast(s'.workers, t)| <= |AtLeast(s.workers, t)|
      ensures t == drop ==> |AtLeast(s'.workers, t)| < |AtLeast(s.workers, t)|
    {
      SubsetSize(AtLeast(s'.workers, t), AtLeast(s.workers, t));
      if t == drop {
        SubsetSize(AtLeast(s'.workers, t), AtLeast(s.workers, t) - {id});
      }
    }
  }

  lemma EnterLowersPhase(p: Plan, s: State, k: nat)
    requires k <= |p.levels|
    ensures PhasesLeft(p, Enter(p, s, k)) <= |p.levels| - k + 3
    ensures Enter(p, s, k).phase.InLevel? || Enter(p, s, k).phase.Skipping?
    decreases |p.levels| - k
  {
  }

  lemma WorkerActionDropsWork(p: Plan, s: State, a: Action)
    requires Enabled(p, s, a) && IsWorkerAction(a)
    ensures Apply(p, s, a).phase == s.phase && WorkLeft(Apply(p, s, a)) < WorkLeft(s)
  {
    hide WorkLeft;
    StageDropsWork(s, Apply(p, s, a), a.id);
  }

  /** Everything but a request to stop brings the run closer to its end. */
  lemma ActionsMakeProgress(p: Plan, s: State, a: Action)
    requires Enabled(p, s, a)
    ensures a.Cancel? || a.Shutdown? ==>
      PhasesLeft(p, Apply(p, s, a)) == PhasesLeft(p, s) && WorkLeft(Apply(p, s, a)) == WorkLeft(s)
    ensures !a.Cancel? && !a.Shutdown? ==>
      || PhasesLeft(p, Apply(p, s, a)) < PhasesLeft(p, s)
      || (PhasesLeft(p, Apply(p, s, a)) == PhasesLeft(p, s) && WorkLeft(Apply(p, s, a)) < WorkLeft(s))
  {
    hide AtLeast;
    if IsWorkerAction(a) {
      WorkerActionDropsWork(p, s, a);
    } else if a.Begin? {
      EnterLowersPhase(p, s.(run := RunRunning), 0);
    } else if a.EndLevel? && !s.cancelled && !s.failed {
      EnterLowersPhase(p, s, s.phase.k + 1);
    }
  }

  lemma LiveWorkerCanMove(p: Plan, s: State, id: string) returns (a: Action)
    requires Live(s, id) && !s.workers[id].Exited?
    ensures Enabled(p, s, a) && IsWorkerAction(a)
  {
    match s.workers[id]
    case Spawned => a := TakeSnapshot(id);
    case Holding(_) => a := if HasHandler(p, id) then MarkStepRunning(id) else Refuse(id);
    case Working(_) => a := HandlerReturns(id, Errored(false));
    case Settling(_, _) => a := FinishStep(id);
    case Settled(_, _) => a := Report(id);
  }

  /** And until the end something can always be done. */
  lemma OpenRunCanGoOn(p: Plan, rank: map<string, nat>, s: State) returns (a: Action)
    requires Inv(p, rank, s) && !s.phase.Closed?
    ensures Enabled(p, s, a) && !a.Cancel? && !a.Shutdown?
  {
    hide WorkerInv, Ordered, Fits;
    match s.phase
    case NotStarted => a := Begin;
    case Skipping(_, _) => a := SkipPending;
    case Finishing(_) => a := FinishRun;
    case Written => a := Unregister;
    case InLevel(k) =>
      if id :| id in s.workers && !s.workers[id].Exited? {
        assert id in RankIds(s.steps.Keys, rank, k);
        a := LiveWorkerCanMove(p, s, id);
      } else {
        a := EndLevel;
      }
  }
}
