/** The one kind of reference that validation lets through and no run can resolve. */
module TriggerReference {
  import opened Wrappers
  import opened Graphs
  import Levelling
  import opened Template
  import opened Validation
  import opened Execution
  import opened StepPrompt
  import opened ExecutionResults

  const NO_CONFIG := NodeConfig("", "", false, "", "", "", "", "", "", "", "", "")

  function TriggerNode(id: string): Node {
    Node(id, TriggerManual, NO_CONFIG)
  }

  function StepNode(id: string, trigger: string): Node {
    Node(id, Agent, NO_CONFIG.(agentId := "agent", prompt := Prompt(trigger)))
  }

  /** A trigger, one agent step, and the step's prompt asking for the output of the trigger. */
  function Flow(trigger: string, step: string): Graph {
    Graph([TriggerNode(trigger), StepNode(step, trigger)], [Edge(trigger, step)])
  }

  lemma TwoRanks(x: Node, y: Node)
    requires x.id != y.id
    ensures var rank: map<string, nat> := map[x.id := 0, y.id := 1];
      Levelling.AtRank([x, y], rank, 0) == [x] && Levelling.AtRank([x, y], rank, 1) == [y]
  {
    var rank: map<string, nat> := map[x.id := 0, y.id := 1];
    assert [x, y][1..] == [y] && [y][1..] == [];
    assert Levelling.AtRank([y], rank, 0) == [] && Levelling.AtRank([y], rank, 1) == [y];
  }

  lemma FlowIsLevelled(t: string, a: string)
    requires t != a
    ensures Levelling.IsRanking(Flow(t, a), [[TriggerNode(t)], [StepNode(a, t)]], map[t := 0, a := 1])
    ensures Flow(t, a).Ids() == {t, a}
  {
    var g := Flow(t, a);
    assert g.nodes[0] == TriggerNode(t) && g.nodes[1] == StepNode(a, t);
    assert g.Ids() == {t, a};
    TwoRanks(TriggerNode(t), StepNode(a, t));
    assert Edge(t, a) in g.edges;
  }

  lemma FlowReaches(t: string, a: string)
    requires t != a
    ensures Reaches(Flow(t, a).edges, t, t) && Reaches(Flow(t, a).edges, t, a) && Before(Flow(t, a).edges, t, a)
    ensures !HasCycle(Flow(t, a).edges)
  {
    var g := Flow(t, a);
    assert Edge(t, a) in g.edges;
    ReachesSelf(g.edges, t);
    ReachesStep(g.edges, t, t, a);
    FlowIsLevelled(t, a);
    Levelling.RankedIsNotBlocked(g, [[TriggerNode(t)], [StepNode(a, t)]], map[t := 0, a := 1]);
    Levelling.BlockedIsCycle(g);
  }

  lemma FlowIsStructured(t: string, a: string, isJsonObject: string -> bool)
    requires t != a && !Blank(t) && !Blank(a)
    ensures Structured(Flow(t, a), isJsonObject)
  {
    var g := Flow(t, a);
    FlowIsLevelled(t, a);
    assert g.nodes[0] == TriggerNode(t) && g.nodes[1] == StepNode(a, t);
    assert !Blank(Prompt(t)) by {
      assert Prompt(t)[0] == '{';
    }
    assert SoleTrigger(g.nodes, 0);
    assert NodeAllowed(g.nodes[0], isJsonObject) && NodeAllowed(g.nodes[1], isJsonObject);
  }

  lemma PromptRefs(t: string)
    requires AllWord(t) && '.' !in t && t != ""
    ensures RefsIn(Prompt(t)) == Ok([StepRef(t)])
  {
    PromptParses(t);
  }

  /** Whatever the trigger is called, a step that refers to it passes validation. */
  lemma TriggerReferenceIsAccepted(t: string, a: string, isJsonObject: string -> bool)
    requires t != a && !Blank(t) && !Blank(a) && AllWord(t) && '.' !in t
    ensures Acceptable(Flow(t, a), isJsonObject)
    ensures StepNode(a, t) in Flow(t, a).nodes && HoldsText(StepNode(a, t), Prompt(t))
    ensures RefsIn(Prompt(t)) == Ok([StepRef(t)])
    ensures TriggerNode(t) in Flow(t, a).nodes
  {
    hide Structured, RefsIn, HasCycle, Reaches, Before, AllWord, Blank;
    var g := Flow(t, a);
    assert g.nodes[0] == TriggerNode(t) && g.nodes[1] == StepNode(a, t);
    assert t != "" by {
      BlankEmpty(t);
    }
    PromptRefs(t);
    FlowReaches(t, a);
    FlowIsStructured(t, a, isJsonObject);
    FlowIsLevelled(t, a);
    assert RefAllowed(g, a, StepRef(t));
    assert TextAllowed(g, a, Prompt(t));
    assert FlowAllowed(g);
  }

  /** The levels of the flow: the trigger, then the step. */
  function FlowPlan(t: string, a: string, handlers: set<NodeKind>): Plan {
    Plan(Flow(t, a), [[TriggerNode(t)], [StepNode(a, t)]], handlers)
  }

  /** And in the very first run the step is given a context in which the reference cannot be resolved. */
  lemma TriggerReferenceFails(t: string, a: string, handlers: set<NodeKind>, input: string, trigger: map<string, string>)
    returns (h: History)
    requires t != a
    ensures Sound(FlowPlan(t, a, handlers), map[t := 0, a := 1])
    ensures IsRun(FlowPlan(t, a, handlers), h) && HasSnapshot(h.states[|h.acts|], a, map[])
    ensures Resolve(StepRef(t), Context(input, trigger, map[])) == Err(StepNotRun(Prompt(t), t))
  {
    hide Enter, Levelling.IsRanking;
    var p := FlowPlan(t, a, handlers);
    FlowIsLevelled(t, a);
    StepsOfFlow(t, a);
    FlowEnters(t, a, handlers);
    var s0 := Init(p);
    var s1 := Apply(p, s0, Begin);
    assert Enabled(p, s0, Begin);
    var s2 := Apply(p, s1, TakeSnapshot(a));
    assert Enabled(p, s1, TakeSnapshot(a));
    h := History([s0, s1, s2], [Begin, TakeSnapshot(a)]);
  }

  /** The level of the trigger is passed over, and the step's goroutine is started. */
  lemma FlowEnters(t: string, a: string, handlers: set<NodeKind>)
    requires StepIds(Flow(t, a)) == {a}
    ensures var p := FlowPlan(t, a, handlers); var s := Apply(p, Init(p), Begin);
      s.phase == InLevel(1) && s.workers == map[a := Spawned] && s.steps.Keys == {a} && s.published == map[]
  {
    var p := FlowPlan(t, a, handlers);
    var s := Init(p).(run := RunRunning);
    assert ExecutableIds(p.levels[0]) == {};
    assert ExecutableIds(p.levels[1]) == {a};
    assert ExecutableIds(p.levels[1]) * s.steps.Keys == {a};
    assert Enter(p, s, 0) == Enter(p, s, 1);
  }

  lemma StepsOfFlow(t: string, a: string)
    ensures StepIds(Flow(t, a)) == {a}
    ensures forall n | n in Flow(t, a).nodes :: KnownKind(n.kind)
  {
    var g := Flow(t, a);
    assert g.nodes[0] == TriggerNode(t) && g.nodes[1] == StepNode(a, t);
  }

  lemma BlankEmpty(s: string)
    ensures s == "" ==> Blank(s)
  {
  }
}
