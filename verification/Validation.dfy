/**
 The node kind registry (backend/internal/workflow/kinds.go) and `Graph.Validate`
 (backend/internal/workflow/graph.go).
 */
module Validation {
  import opened Counting
  import opened Wrappers
  import opened Graphs
  import Levelling
  import opened Template

  // ----- kinds

  predicate KnownKind(kind: NodeKind) {
    !kind.Unknown?
  }

  predicate Executable(kind: NodeKind) {
    kind.Agent? || kind.GitHubPR? || kind.JiraComment? || kind.MCPCall?
  }

  /** White space as Unicode has it, which is what Go's `TrimSpace` strips. */
  predicate IsUnicodeSpace(c: char) {
    '\U{0009}' <= c <= '\U{000D}' || c == ' ' || c == '\U{0085}' || c == '\U{00A0}' || c == '\U{1680}'
    || '\U{2000}' <= c <= '\U{200A}' || c == '\U{2028}' || c == '\U{2029}' || c == '\U{202F}'
    || c == '\U{205F}' || c == '\U{3000}'
  }

  predicate Blank(s: string) {
    forall i | 0 <= i < |s| :: IsUnicodeSpace(s[i])
  }

  datatype FieldIssue =
    | AgentMissing | PromptBlank | TitleBlank | IssueKeyBlank | CommentBlank | QueryBlank
    | ServerMissing | ToolMissing | ArgumentsNotAnObject

  function FieldIssues(n: Node, isJsonObject: string -> bool): seq<FieldIssue> {
    var c := n.config;
    match n.kind
    case TriggerJira => if Blank(c.jql) then [QueryBlank] else []
    case Agent => (if c.agentId == "" then [AgentMissing] else []) + (if Blank(c.prompt) then [PromptBlank] else [])
    case GitHubPR => if Blank(c.title) then [TitleBlank] else []
    case JiraComment =>
      (if Blank(c.issueKey) then [IssueKeyBlank] else []) + (if Blank(c.body) then [CommentBlank] else [])
    case MCPCall =>
      (if Blank(c.mcpServerId) then [ServerMissing] else []) + (if Blank(c.toolName) then [ToolMissing] else [])
      + (if !Blank(c.arguments) && !isJsonObject(c.arguments) then [ArgumentsNotAnObject] else [])
    case _ => []
  }

  /** The fields of a node that can hold references. */
  function Templates(n: Node): seq<string> {
    var c := n.config;
    match n.kind
    case Agent => [c.prompt]
    case GitHubPR => [c.title, c.body, c.headBranch, c.baseBranch]
    case JiraComment => [c.issueKey, c.body]
    case MCPCall => [c.arguments]
    case _ => []
  }

  // ----- problems

  datatype Problem =
    | NoNodes | MissingId | DuplicateId(id: string) | UnknownKind(id: string, kind: NodeKind)
    | BadField(id: string, issue: FieldIssue)
    | NoTrigger | ManyTriggers(count: nat)
    | EdgeFromNowhere(from: string) | EdgeToNowhere(to: string) | SelfEdge(id: string)
    | RepeatedEdge(edge: Edge) | EdgeIntoTrigger(id: string)
    | Cyclic
    | Unreachable(id: string)
    | BadTemplate(id: string, error: TemplateError)
    | RefToNowhere(id: string, ref: Ref) | RefNotBefore(id: string, ref: Ref)
    | NoPusher(id: string) | ManyPushers(id: string, pushers: set<string>)

  function SeenIds(nodes: seq<Node>): set<string> {
    set n | n in nodes && !Blank(n.id) :: n.id
  }

  function FieldProblems(id: string, issues: seq<FieldIssue>): seq<Problem> {
    seq(|issues|, i requires 0 <= i < |issues| => BadField(id, issues[i]))
  }

  function NodeProblems(before: seq<Node>, n: Node, isJsonObject: string -> bool): seq<Problem> {
    if Blank(n.id) then [MissingId]
    else if n.id in SeenIds(before) then [DuplicateId(n.id)]
    else if !KnownKind(n.kind) then [UnknownKind(n.id, n.kind)]
    else FieldProblems(n.id, FieldIssues(n, isJsonObject))
  }

  predicate CountsAsTrigger(before: seq<Node>, n: Node) {
    !Blank(n.id) && n.id !in SeenIds(before) && KnownKind(n.kind) && n.kind.IsTrigger()
  }

  function NodeReport(nodes: seq<Node>, isJsonObject: string -> bool): seq<Problem> {
    if nodes == [] then []
    else
      var k := |nodes| - 1;
      NodeReport(nodes[..k], isJsonObject) + NodeProblems(nodes[..k], nodes[k], isJsonObject)
  }

  function TriggerCount(nodes: seq<Node>): nat {
    if nodes == [] then 0
    else
      var k := |nodes| - 1;
      TriggerCount(nodes[..k]) + (if CountsAsTrigger(nodes[..k], nodes[k]) then 1 else 0)
  }

  function TriggerReport(count: nat): seq<Problem> {
    if count == 0 then [NoTrigger] else if count > 1 then [ManyTriggers(count)] else []
  }

  function EdgeProblems(g: Graph, before: seq<Edge>, e: Edge): seq<Problem> {
    if e.from !in SeenIds(g.nodes) then [EdgeFromNowhere(e.from)]
    else if e.to !in SeenIds(g.nodes) then [EdgeToNowhere(e.to)]
    else if e.from == e.to then [SelfEdge(e.from)]
    else if e in before then [RepeatedEdge(e)]
    else if g.Find(e.to).Some? && g.Find(e.to).value.kind.IsTrigger() then [EdgeIntoTrigger(e.to)]
    else []
  }

  function EdgeReport(g: Graph, edges: seq<Edge>): seq<Problem> {
    if edges == [] then []
    else
      var k := |edges| - 1;
      EdgeReport(g, edges[..k]) + EdgeProblems(g, edges[..k], edges[k])
  }

  function StructureReport(g: Graph, isJsonObject: string -> bool): seq<Problem> {
    NodeReport(g.nodes, isJsonObject) + TriggerReport(TriggerCount(g.nodes)) + EdgeReport(g, g.edges)
  }

  function TriggerOf(nodes: seq<Node>): Option<Node> {
    if nodes == [] then None else if nodes[0].kind.IsTrigger() then Some(nodes[0]) else TriggerOf(nodes[1..])
  }

  /** The problems of every element, in order. */
  ghost function Gather<T>(xs: seq<T>, f: T -> seq<Problem>): seq<Problem> {
    if xs == [] then []
    else Gather(xs[..|xs| - 1], f) + f(xs[|xs| - 1])
  }

  ghost function ReachProblems(g: Graph, start: string): Node -> seq<Problem> {
    (n: Node) => if Reaches(g.edges, start, n.id) then [] else [Unreachable(n.id)]
  }

  ghost function RefProblems(g: Graph, id: string): Ref -> seq<Problem> {
    (ref: Ref) =>
      if ref.root != RootSteps then []
      else if ref.node !in SeenIds(g.nodes) then [RefToNowhere(id, ref)]
      else if !Before(g.edges, ref.node, id) then [RefNotBefore(id, ref)]
      else []
  }

  function RefsIn(text: string): Result<seq<Ref>, TemplateError> {
    ParseAll(Holes(Scan(text)))
  }

  ghost function TextProblems(g: Graph, id: string): string -> seq<Problem> {
    (text: string) =>
      match RefsIn(text)
      case Err(e) => [BadTemplate(id, e)]
      case Ok(refs) => Gather(refs, RefProblems(g, id))
  }

  ghost function TemplateProblems(g: Graph): Node -> seq<Problem> {
    (n: Node) => Gather(Templates(n), TextProblems(g, n.id))
  }

  predicate IsPusher(g: Graph, id: string) {
    g.Find(id).Some? && g.Find(id).value.kind.Agent? && g.Find(id).value.config.autoPush
  }

  /** The agent steps before `id` that push their branch. */
  ghost function Pushers(g: Graph, id: string): set<string> {
    set v | v in Froms(g.edges) && Before(g.edges, v, id) && IsPusher(g, v)
  }

  predicate NeedsPusher(n: Node) {
    n.kind.GitHubPR? && Blank(n.config.headBranch)
  }

  ghost function PRProblems(g: Graph): Node -> seq<Problem> {
    (n: Node) =>
      if !NeedsPusher(n) || |Pushers(g, n.id)| == 1 then []
      else if |Pushers(g, n.id)| == 0 then [NoPusher(n.id)]
      else [ManyPushers(n.id, Pushers(g, n.id))]
  }

  ghost function FlowReport(g: Graph): seq<Problem> {
    if HasCycle(g.edges) then [Cyclic]
    else
      match TriggerOf(g.nodes)
      case None => []
      case Some(t) =>
        Gather(g.nodes, ReachProblems(g, t.id)) + Gather(g.nodes, TemplateProblems(g)) + Gather(g.nodes, PRProblems(g))
  }

  /** Everything `Validate` has to say; the later checks are silent while the structure is broken. */
  ghost function Report(g: Graph, isJsonObject: string -> bool): seq<Problem> {
    if g.nodes == [] then [NoNodes]
    else if StructureReport(g, isJsonObject) != [] then StructureReport(g, isJsonObject)
    else FlowReport(g)
  }

  // ----- what an accepted graph is

  ghost predicate RefAllowed(g: Graph, id: string, ref: Ref) {
    ref.root == RootSteps ==> ref.node in g.Ids() && Before(g.edges, ref.node, id)
  }

  ghost predicate TextAllowed(g: Graph, id: string, text: string) {
    RefsIn(text).Ok? && forall ref | ref in RefsIn(text).value :: RefAllowed(g, id, ref)
  }

  /** The fields a node of its kind cannot do without. */
  predicate FieldsComplete(n: Node, isJsonObject: string -> bool) {
    var c := n.config;
    && (n.kind.TriggerJira? ==> !Blank(c.jql))
    && (n.kind.Agent? ==> c.agentId != "" && !Blank(c.prompt))
    && (n.kind.GitHubPR? ==> !Blank(c.title))
    && (n.kind.JiraComment? ==> !Blank(c.issueKey) && !Blank(c.body))
    && (n.kind.MCPCall? ==>
          !Blank(c.mcpServerId) && !Blank(c.toolName) && (Blank(c.arguments) || isJsonObject(c.arguments)))
  }

  /** The text stands in a field of the node in which references are replaced. */
  predicate HoldsText(n: Node, text: string) {
    var c := n.config;
    || (n.kind.Agent? && text == c.prompt)
    || (n.kind.GitHubPR? && (text == c.title || text == c.body || text == c.headBranch || text == c.baseBranch))
    || (n.kind.JiraComment? && (text == c.issueKey || text == c.body))
    || (n.kind.MCPCall? && text == c.arguments)
  }

  lemma FieldIssuesMeaning(n: Node, isJsonObject: string -> bool)
    ensures FieldIssues(n, isJsonObject) == [] <==> FieldsComplete(n, isJsonObject)
  {
    hide Blank;
  }

  lemma TemplatesMeaning(n: Node)
    ensures forall text :: text in Templates(n) <==> HoldsText(n, text)
  {
  }

  ghost predicate NodeAllowed(n: Node, isJsonObject: string -> bool) {
    !Blank(n.id) && KnownKind(n.kind) && FieldsComplete(n, isJsonObject)
  }

  ghost predicate SoleTrigger(nodes: seq<Node>, i: nat) {
    i < |nodes| && nodes[i].kind.IsTrigger()
    && forall j | 0 <= j < |nodes| && j != i :: !nodes[j].kind.IsTrigger()
  }

  ghost predicate OneTrigger(nodes: seq<Node>) {
    exists i :: SoleTrigger(nodes, i)
  }

  ghost predicate Structured(g: Graph, isJsonObject: string -> bool) {
    g.UniqueIds() && AllAllowed(g.nodes, isJsonObject) && OneTrigger(g.nodes) && EdgesAllowedUpTo(g, g.edges)
  }

  /** What has to hold beyond the structure. */
  ghost predicate FlowAllowed(g: Graph) {
    && !HasCycle(g.edges)
    && (forall t, n | t in g.nodes && t.kind.IsTrigger() && n in g.nodes :: Reaches(g.edges, t.id, n.id))
    && (forall n, text | n in g.nodes && HoldsText(n, text) :: TextAllowed(g, n.id, text))
    && (forall n | n in g.nodes && NeedsPusher(n) :: |Pushers(g, n.id)| == 1)
  }

  /** What a graph has to be for a workflow to be saved. */
  ghost predicate Acceptable(g: Graph, isJsonObject: string -> bool) {
    g.nodes != [] && Structured(g, isJsonObject) && FlowAllowed(g)
  }

  // ----- the method

  method CheckNode(ghost before: seq<Node>, n: Node, seen0: set<string>, isJsonObject: string -> bool)
    returns (problems: seq<Problem>, trigger: bool, seen: set<string>)
    requires seen0 == SeenIds(before)
    ensures problems == NodeProblems(before, n, isJsonObject)
    ensures trigger == CountsAsTrigger(before, n)
    ensures seen == SeenIds(before + [n])
  {
    problems, trigger, seen := [], false, seen0;
    assert SeenIds(before + [n]) == SeenIds(before) + (if Blank(n.id) then {} else {n.id});
    if Blank(n.id) {
      problems := [MissingId];
    } else if n.id in seen {
      problems := [DuplicateId(n.id)];
    } else {
      seen := seen + {n.id};
      if !KnownKind(n.kind) {
        problems := [UnknownKind(n.id, n.kind)];
      } else {
        trigger := n.kind.IsTrigger();
        problems := FieldProblems(n.id, FieldIssues(n, isJsonObject));
      }
    }
  }

  method CheckNodes(g: Graph, isJsonObject: string -> bool) returns (problems: seq<Problem>, triggers: nat, seen: set<string>)
    ensures problems == NodeReport(g.nodes, isJsonObject)
    ensures triggers == TriggerCount(g.nodes)
    ensures seen == SeenIds(g.nodes)
  {
    hide NodeProblems, CountsAsTrigger;
    problems, triggers, seen := [], 0, {};
    for i := 0 to |g.nodes|
      invariant problems == NodeReport(g.nodes[..i], isJsonObject)
      invariant triggers == TriggerCount(g.nodes[..i])
      invariant seen == SeenIds(g.nodes[..i])
    {
      assert g.nodes[..i + 1] == g.nodes[..i] + [g.nodes[i]];
      assert g.nodes[..i + 1][..i] == g.nodes[..i];
      var more, trigger;
      more, trigger, seen := CheckNode(g.nodes[..i], g.nodes[i], seen, isJsonObject);
      problems := problems + more;
      triggers := triggers + (if trigger then 1 else 0);
    }
    assert g.nodes[..|g.nodes|] == g.nodes;
  }

  method CheckEdges(g: Graph, seen: set<string>) returns (problems: seq<Problem>)
    requires seen == SeenIds(g.nodes)
    ensures problems == EdgeReport(g, g.edges)
  {
    problems := [];
    var edgeSeen: set<Edge> := {};
    for i := 0 to |g.edges|
      invariant problems == EdgeReport(g, g.edges[..i])
      invariant edgeSeen == set e | e in g.edges[..i] && e.from in seen && e.to in seen && e.from != e.to
    {
      var e := g.edges[i];
      assert g.edges[..i + 1] == g.edges[..i] + [e];
      assert g.edges[..i + 1][..i] == g.edges[..i];
      if e.from !in seen {
        problems := problems + [EdgeFromNowhere(e.from)];
      } else if e.to !in seen {
        problems := problems + [EdgeToNowhere(e.to)];
      } else if e.from == e.to {
        problems := problems + [SelfEdge(e.from)];
      } else if e in edgeSeen {
        problems := problems + [RepeatedEdge(e)];
      } else {
        edgeSeen := edgeSeen + {e};
        if g.Find(e.to).Some? && g.Find(e.to).value.kind.IsTrigger() {
          problems := problems + [EdgeIntoTrigger(e.to)];
        }
      }
    }
    assert g.edges[..|g.edges|] == g.edges;
  }

  method CheckReach(g: Graph, start: string) returns (problems: seq<Problem>)
    ensures problems == Gather(g.nodes, ReachProblems(g, start))
  {
    var reachable := ReachableFrom(g, start);
    problems := [];
    for i := 0 to |g.nodes|
      invariant problems == Gather(g.nodes[..i], ReachProblems(g, start))
    {
      assert g.nodes[..i + 1][..i] == g.nodes[..i];
      if g.nodes[i].id !in reachable {
        problems := problems + [Unreachable(g.nodes[i].id)];
      }
    }
    assert g.nodes[..|g.nodes|] == g.nodes;
  }

  method CheckRefs(g: Graph, seen: set<string>, id: string, before: set<string>, refs: seq<Ref>)
    returns (problems: seq<Problem>)
    requires seen == SeenIds(g.nodes) && forall v :: v in before <==> Before(g.edges, v, id)
    ensures problems == Gather(refs, RefProblems(g, id))
  {
    problems := [];
    for i := 0 to |refs|
      invariant problems == Gather(refs[..i], RefProblems(g, id))
    {
      var ref := refs[i];
      assert refs[..i + 1][..i] == refs[..i];
      if ref.root == RootSteps {
        if ref.node !in seen {
          problems := problems + [RefToNowhere(id, ref)];
        } else if ref.node !in before {
          problems := problems + [RefNotBefore(id, ref)];
        }
      }
    }
    assert refs[..|refs|] == refs;
  }

  method CheckTexts(g: Graph, seen: set<string>, id: string, before: set<string>, texts: seq<string>)
    returns (problems: seq<Problem>)
    requires seen == SeenIds(g.nodes) && forall v :: v in before <==> Before(g.edges, v, id)
    ensures problems == Gather(texts, TextProblems(g, id))
  {
    problems := [];
    for i := 0 to |texts|
      invariant problems == Gather(texts[..i], TextProblems(g, id))
    {
      assert texts[..i + 1][..i] == texts[..i];
      var refs := References(texts[i]);
      match refs {
        case Err(e) => problems := problems + [BadTemplate(id, e)];
        case Ok(found) =>
          var more := CheckRefs(g, seen, id, before, found);
          problems := problems + more;
      }
    }
    assert texts[..|texts|] == texts;
  }

  method CheckTemplates(g: Graph, seen: set<string>, ancestors: map<string, set<string>>) returns (problems: seq<Problem>)
    requires seen == SeenIds(g.nodes) && ancestors.Keys == g.Ids()
    requires forall id, v | id in ancestors :: v in ancestors[id] <==> Before(g.edges, v, id)
    ensures problems == Gather(g.nodes, TemplateProblems(g))
  {
    problems := [];
    for i := 0 to |g.nodes|
      invariant problems == Gather(g.nodes[..i], TemplateProblems(g))
    {
      assert g.nodes[..i + 1][..i] == g.nodes[..i];
      assert g.nodes[i].id in g.Ids();
      var more := CheckTexts(g, seen, g.nodes[i].id, ancestors[g.nodes[i].id], Templates(g.nodes[i]));
      problems := problems + more;
    }
    assert g.nodes[..|g.nodes|] == g.nodes;
  }

  lemma PushersAmong(g: Graph, id: string, before: set<string>)
    requires forall v :: v in before <==> Before(g.edges, v, id)
    ensures (set v | v in before && IsPusher(g, v)) == Pushers(g, id)
  {
    forall v | v in before ensures v in Froms(g.edges) {
      BeforeByFirstEdge(g.edges, v, id);
      var w :| Edge(v, w) in g.edges && Reaches(g.edges, w, id);
      assert Edge(v, w).from == v;
    }
  }

  method CheckPullRequests(g: Graph, ancestors: map<string, set<string>>) returns (problems: seq<Problem>)
    requires ancestors.Keys == g.Ids()
    requires forall id, v | id in ancestors :: v in ancestors[id] <==> Before(g.edges, v, id)
    ensures problems == Gather(g.nodes, PRProblems(g))
  {
    problems := [];
    for i := 0 to |g.nodes|
      invariant problems == Gather(g.nodes[..i], PRProblems(g))
    {
      var n := g.nodes[i];
      assert g.nodes[..i + 1][..i] == g.nodes[..i];
      assert n.id in g.Ids();
      if NeedsPusher(n) {
        var pushers := set v | v in ancestors[n.id] && IsPusher(g, v);
        PushersAmong(g, n.id, ancestors[n.id]);
        if |pushers| == 0 {
          problems := problems + [NoPusher(n.id)];
        } else if |pushers| > 1 {
          problems := problems + [ManyPushers(n.id, pushers)];
        }
      }
    }
    assert g.nodes[..|g.nodes|] == g.nodes;
  }

  /** The checks that make sense only once the structure is sound. */
  method CheckFlow(g: Graph, seen: set<string>, isJsonObject: string -> bool) returns (problems: seq<Problem>)
    requires g.nodes != [] && Structured(g, isJsonObject) && seen == SeenIds(g.nodes)
    ensures problems == FlowReport(g)
  {
    hide StructureReport, Structured, OneTrigger, HasCycle, Levelling.IsRanking, Levelling.Blocked;
    StructureMeaning(g, isJsonObject);
    var levels := Levelling.Levels(g);
    Levelling.BlockedIsCycle(g);
    if levels.Err? {
      return [Cyclic];
    }
    ghost var rank :| Levelling.IsRanking(g, levels.value, rank);
    Levelling.RankedIsNotBlocked(g, levels.value, rank);

    TriggerOfOne(g.nodes);
    var trigger := TriggerOf(g.nodes);
    var unreachable := CheckReach(g, trigger.value.id);
    var ancestors := Ancestors(g);
    var badTemplates := CheckTemplates(g, seen, ancestors);
    var badPullRequests := CheckPullRequests(g, ancestors);
    problems := unreachable + badTemplates + badPullRequests;
  }

  /**
   All the faults of a graph in one go; none means the graph may be saved. Whether the arguments of an MCP
   call parse as a JSON object is asked of the JSON library.
   */
  method Validate(g: Graph, isJsonObject: string -> bool) returns (problems: seq<Problem>)
    ensures problems == Report(g, isJsonObject)
    ensures problems == [] <==> Acceptable(g, isJsonObject)
  {
    hide Structured, Acceptable, FlowReport, NodeReport, EdgeReport, TriggerCount;
    ReportMeaning(g, isJsonObject);
    if g.nodes == [] {
      return [NoNodes];
    }
    var nodeProblems, triggers, seen := CheckNodes(g, isJsonObject);
    var edgeProblems := CheckEdges(g, seen);
    problems := nodeProblems + TriggerReport(triggers) + edgeProblems;
    if problems != [] {
      return;
    }
    StructureMeaning(g, isJsonObject);
    problems := CheckFlow(g, seen, isJsonObject);
  }

  // ----- no problem means acceptable

  ghost predicate AllAllowed(nodes: seq<Node>, isJsonObject: string -> bool) {
    forall n | n in nodes :: NodeAllowed(n, isJsonObject)
  }

  lemma {:induction false} GatherEmpty<T>(xs: seq<T>, f: T -> seq<Problem>)
    ensures Gather(xs, f) == [] <==> forall x | x in xs :: f(x) == []
  {
    if xs != [] {
      var k := |xs| - 1;
      GatherEmpty(xs[..k], f);
      assert xs == xs[..k] + [xs[k]];
      assert forall x :: x in xs <==> x in xs[..k] || x == xs[k];
    }
  }

  lemma NodesSnoc(nodes: seq<Node>, n: Node, isJsonObject: string -> bool)
    ensures AllAllowed(nodes + [n], isJsonObject) <==> AllAllowed(nodes, isJsonObject) && NodeAllowed(n, isJsonObject)
    ensures DistinctIds(nodes + [n])
      <==> DistinctIds(nodes) && forall m | m in nodes :: m.id != n.id
  {
    assert forall m :: m in nodes + [n] <==> m in nodes || m == n;
    if DistinctIds(nodes + [n]) {
      forall m | m in nodes ensures m.id != n.id {
        var j :| 0 <= j < |nodes| && nodes[j] == m;
        assert (nodes + [n])[j] == m && (nodes + [n])[|nodes|] == n;
      }
      assert forall i | 0 <= i < |nodes| :: (nodes + [n])[i] == nodes[i];
    }
  }

  lemma NodeProblemsEmpty(before: seq<Node>, n: Node, isJsonObject: string -> bool)
    ensures NodeProblems(before, n, isJsonObject) == [] <==> n.id !in SeenIds(before) && NodeAllowed(n, isJsonObject)
  {
    FieldIssuesMeaning(n, isJsonObject);
    assert |FieldProblems(n.id, FieldIssues(n, isJsonObject))| == |FieldIssues(n, isJsonObject)|;
    if Blank(n.id) && n.id in SeenIds(before) {
    }
  }

  lemma {:induction false} NodeReportEmpty(nodes: seq<Node>, isJsonObject: string -> bool)
    ensures NodeReport(nodes, isJsonObject) == [] <==> DistinctIds(nodes) && AllAllowed(nodes, isJsonObject)
  {
    if nodes != [] {
      var before, n := nodes[..|nodes| - 1], nodes[|nodes| - 1];
      assert nodes == before + [n];
      NodeReportEmpty(before, isJsonObject);
      NodesSnoc(before, n, isJsonObject);
      NodeProblemsEmpty(before, n, isJsonObject);
      if AllAllowed(before, isJsonObject) {
        SeenAll(before, isJsonObject);
      }
    }
  }

  lemma SeenAll(nodes: seq<Node>, isJsonObject: string -> bool)
    requires AllAllowed(nodes, isJsonObject)
    ensures SeenIds(nodes) == IdsOf(nodes)
    ensures forall id :: id in SeenIds(nodes) <==> exists n | n in nodes :: n.id == id
  {
    assert forall n | n in nodes :: !Blank(n.id);
  }

  predicate NoTriggerIn(nodes: seq<Node>) {
    forall i | 0 <= i < |nodes| :: !nodes[i].kind.IsTrigger()
  }

  lemma {:induction false} TriggerCountMeaning(nodes: seq<Node>, isJsonObject: string -> bool)
    requires DistinctIds(nodes) && AllAllowed(nodes, isJsonObject)
    ensures TriggerCount(nodes) == 0 <==> NoTriggerIn(nodes)
    ensures TriggerCount(nodes) == 1 <==> OneTrigger(nodes)
  {
    if nodes != [] {
      var before, n := nodes[..|nodes| - 1], nodes[|nodes| - 1];
      assert nodes == before + [n];
      NodesSnoc(before, n, isJsonObject);
      SeenAll(before, isJsonObject);
      TriggerCountMeaning(before, isJsonObject);
      TriggersSnoc(before, n);
    }
  }

  lemma TriggersSnoc(nodes: seq<Node>, n: Node)
    ensures NoTriggerIn(nodes + [n]) <==> NoTriggerIn(nodes) && !n.kind.IsTrigger()
    ensures OneTrigger(nodes + [n]) <==> if n.kind.IsTrigger() then NoTriggerIn(nodes) else OneTrigger(nodes)
  {
    var all := nodes + [n];
    assert all[|nodes|] == n && forall i | 0 <= i < |nodes| :: all[i] == nodes[i];
    if OneTrigger(all) {
      var i :| SoleTrigger(all, i);
      if n.kind.IsTrigger() {
        assert i == |nodes|;
      } else {
        assert SoleTrigger(nodes, i);
      }
    }
    if n.kind.IsTrigger() && NoTriggerIn(nodes) {
      assert SoleTrigger(all, |nodes|);
    }
    if !n.kind.IsTrigger() && OneTrigger(nodes) {
      var i :| SoleTrigger(nodes, i);
      assert SoleTrigger(all, i);
    }
  }

  /** The edges up to some point are as they should be. */
  ghost predicate EdgesAllowedUpTo(g: Graph, edges: seq<Edge>) {
    (forall e | e in edges :: EdgeAllowed(g, e)) && forall i, j | 0 <= i < j < |edges| :: edges[i] != edges[j]
  }

  ghost predicate EdgeAllowed(g: Graph, e: Edge) {
    && e.from in g.Ids() && e.to in g.Ids() && e.from != e.to
    && forall n | n in g.nodes && n.id == e.to :: !n.kind.IsTrigger()
  }

  lemma EdgesSnoc(g: Graph, edges: seq<Edge>, e: Edge)
    ensures EdgesAllowedUpTo(g, edges + [e]) <==> EdgesAllowedUpTo(g, edges) && EdgeAllowed(g, e) && e !in edges
  {
    assert forall f :: f in edges + [e] <==> f in edges || f == e;
    assert (edges + [e])[|edges|] == e && forall i | 0 <= i < |edges| :: (edges + [e])[i] == edges[i];
  }

  lemma {:induction false} EdgeReportEmpty(g: Graph, edges: seq<Edge>)
    requires g.UniqueIds() && SeenIds(g.nodes) == g.Ids()
    ensures EdgeReport(g, edges) == [] <==> EdgesAllowedUpTo(g, edges)
  {
    if edges != [] {
      var before, e := edges[..|edges| - 1], edges[|edges| - 1];
      assert edges == before + [e];
      EdgeReportEmpty(g, before);
      EdgesSnoc(g, before, e);
      FindUnique(g, e.to);
    }
  }

  lemma FindUnique(g: Graph, id: string)
    requires g.UniqueIds()
    ensures forall n | n in g.nodes && n.id == id :: g.Find(id) == Some(n)
  {
    forall n | n in g.nodes && n.id == id ensures g.Find(id) == Some(n) {
      var m := g.Find(id).value;
      var i :| 0 <= i < |g.nodes| && g.nodes[i] == n;
      var j :| 0 <= j < |g.nodes| && g.nodes[j] == m;
    }
  }

  lemma StructureMeaning(g: Graph, isJsonObject: string -> bool)
    ensures StructureReport(g, isJsonObject) == [] <==> Structured(g, isJsonObject)
    ensures Structured(g, isJsonObject) ==> SeenIds(g.nodes) == g.Ids() && OneTrigger(g.nodes)
    ensures Structured(g, isJsonObject) ==> g.UniqueIds() && g.KnownEndpoints()
  {
    NodeReportEmpty(g.nodes, isJsonObject);
    if DistinctIds(g.nodes) && AllAllowed(g.nodes, isJsonObject) {
      TriggerCountMeaning(g.nodes, isJsonObject);
      SeenAll(g.nodes, isJsonObject);
      assert g.UniqueIds();
      EdgeReportEmpty(g, g.edges);
    }
  }

  lemma {:induction false} TriggerOfOne(nodes: seq<Node>)
    requires OneTrigger(nodes)
    ensures TriggerOf(nodes).Some? && TriggerOf(nodes).value in nodes && TriggerOf(nodes).value.kind.IsTrigger()
    ensures forall n | n in nodes && n.kind.IsTrigger() :: n == TriggerOf(nodes).value
  {
    TriggerOfFirst(nodes);
    var t := TriggerOf(nodes).value;
    forall n | n in nodes && n.kind.IsTrigger() ensures n == t {
      var i :| 0 <= i < |nodes| && nodes[i] == n;
      var j :| 0 <= j < |nodes| && nodes[j] == t;
    }
  }

  lemma {:induction false} TriggerOfFirst(nodes: seq<Node>)
    ensures TriggerOf(nodes).Some? <==> exists n | n in nodes :: n.kind.IsTrigger()
    ensures TriggerOf(nodes).Some? ==> TriggerOf(nodes).value in nodes && TriggerOf(nodes).value.kind.IsTrigger()
    ensures OneTrigger(nodes) ==> TriggerOf(nodes).Some?
  {
    if nodes != [] {
      TriggerOfFirst(nodes[1..]);
      if OneTrigger(nodes) {
        var i :| 0 <= i < |nodes| && nodes[i].kind.IsTrigger();
        assert nodes[i] in nodes;
      }
      assert forall n :: n in nodes <==> n == nodes[0] || n in nodes[1..];
    }
  }

  lemma TextProblemsEmpty(g: Graph, id: string, text: string)
    requires SeenIds(g.nodes) == g.Ids()
    ensures TextProblems(g, id)(text) == [] <==> TextAllowed(g, id, text)
  {
    if RefsIn(text).Ok? {
      var refs := RefsIn(text).value;
      GatherEmpty(refs, RefProblems(g, id));
      forall ref | ref in refs ensures RefProblems(g, id)(ref) == [] <==> RefAllowed(g, id, ref) {
      }
    }
  }

  lemma TemplateProblemsEmpty(g: Graph, n: Node)
    requires SeenIds(g.nodes) == g.Ids()
    ensures TemplateProblems(g)(n) == [] <==> forall text | HoldsText(n, text) :: TextAllowed(g, n.id, text)
  {
    GatherEmpty(Templates(n), TextProblems(g, n.id));
    TemplatesMeaning(n);
    hide Templates;
    forall text | text in Templates(n) ensures TextProblems(g, n.id)(text) == [] <==> TextAllowed(g, n.id, text) {
      TextProblemsEmpty(g, n.id, text);
    }
  }

  lemma FlowMeaning(g: Graph)
    requires OneTrigger(g.nodes) && SeenIds(g.nodes) == g.Ids()
    ensures FlowReport(g) == [] <==> FlowAllowed(g)
  {
    hide TextAllowed, HoldsText, Gather, HasCycle, OneTrigger, Reaches, NeedsPusher, Pushers, TextProblems, Templates;
    TriggerOfOne(g.nodes);
    var t := TriggerOf(g.nodes).value;
    GatherEmpty(g.nodes, ReachProblems(g, t.id));
    GatherEmpty(g.nodes, TemplateProblems(g));
    GatherEmpty(g.nodes, PRProblems(g));
    forall n | n in g.nodes
      ensures TemplateProblems(g)(n) == [] <==> forall text | HoldsText(n, text) :: TextAllowed(g, n.id, text)
    {
      TemplateProblemsEmpty(g, n);
    }
  }

  /** The report is empty exactly for acceptable graphs. */
  lemma ReportMeaning(g: Graph, isJsonObject: string -> bool)
    ensures Report(g, isJsonObject) == [] <==> Acceptable(g, isJsonObject)
  {
    hide StructureReport, Structured, FlowReport, FlowAllowed;
    StructureMeaning(g, isJsonObject);
    if g.nodes != [] && Structured(g, isJsonObject) {
      FlowMeaning(g);
    }
  }

  /** The references of every field that is rendered are sound, field by field. */
  ghost predicate NodeTextsAllowed(g: Graph, n: Node) {
    var c := n.config;
    && (n.kind.Agent? ==> TextAllowed(g, n.id, c.prompt))
    && (n.kind.GitHubPR? ==> TextAllowed(g, n.id, c.title) && TextAllowed(g, n.id, c.body))
    && (n.kind.GitHubPR? ==> TextAllowed(g, n.id, c.headBranch) && TextAllowed(g, n.id, c.baseBranch))
    && (n.kind.JiraComment? ==> TextAllowed(g, n.id, c.issueKey) && TextAllowed(g, n.id, c.body))
    && (n.kind.MCPCall? ==> TextAllowed(g, n.id, c.arguments))
  }

  /** Somewhere before `id` stands an agent node `v` that is set to push its branch. */
  ghost predicate Pushes(g: Graph, id: string, v: string) {
    Before(g.edges, v, id) && exists n :: n in g.nodes && n.id == v && n.kind.Agent? && n.config.autoPush
  }

  ghost predicate OnePusher(g: Graph, id: string) {
    exists v :: Pushes(g, id, v) && forall w :: Pushes(g, id, w) ==> w == v
  }

  lemma PusherMeaning(g: Graph, id: string, v: string)
    requires g.UniqueIds()
    ensures v in Pushers(g, id) <==> Pushes(g, id, v)
  {
    if Before(g.edges, v, id) {
      BeforeByFirstEdge(g.edges, v, id);
      var w :| Edge(v, w) in g.edges && Reaches(g.edges, w, id);
      assert Edge(v, w).from == v;
    }
    hide Before, Reaches;
    FindUnique(g, v);
    if g.Find(v).Some? {
      assert g.Find(v).value in g.nodes && g.Find(v).value.id == v;
    }
  }

  lemma OnePusherMeaning(g: Graph, id: string)
    requires g.UniqueIds()
    ensures OnePusher(g, id) <==> |Pushers(g, id)| == 1
  {
    forall v ensures v in Pushers(g, id) <==> Pushes(g, id, v) {
      PusherMeaning(g, id, v);
    }
    hide Pushes, Pushers;
    var pushers := Pushers(g, id);
    if |pushers| == 1 {
      var v :| v in pushers;
      SubsetSize({v}, pushers);
      assert forall w | w in pushers :: w == v by {
        forall w | w in pushers ensures w == v {
          if w != v {
            SubsetSize({v, w}, pushers);
          }
        }
      }
    }
    if v :| Pushes(g, id, v) && forall w :: Pushes(g, id, w) ==> w == v {
      assert pushers == {v};
    }
  }

  lemma StructuredIds(g: Graph, isJsonObject: string -> bool)
    requires Structured(g, isJsonObject)
    ensures g.UniqueIds()
  {
  }

  /** A graph with a sound structure is accepted exactly if its flow, all those fields and its PR nodes are sound. */
  lemma AcceptedFields(g: Graph, isJsonObject: string -> bool)
    requires g.nodes != [] && Structured(g, isJsonObject)
    ensures Report(g, isJsonObject) == [] <==>
      && !HasCycle(g.edges)
      && (forall t, n | t in g.nodes && t.kind.IsTrigger() && n in g.nodes :: Reaches(g.edges, t.id, n.id))
      && (forall n | n in g.nodes :: NodeTextsAllowed(g, n))
      && (forall n | n in g.nodes && n.kind.GitHubPR? && Blank(n.config.headBranch) :: OnePusher(g, n.id))
  {
    hide Structured, TextAllowed, HasCycle, Report, Pushes, Pushers, Blank, OnePusher;
    ReportMeaning(g, isJsonObject);
    StructuredIds(g, isJsonObject);
    forall n | n in g.nodes ensures OnePusher(g, n.id) <==> |Pushers(g, n.id)| == 1 {
      OnePusherMeaning(g, n.id);
    }
    forall n | n in g.nodes
      ensures NodeTextsAllowed(g, n) <==> forall text | HoldsText(n, text) :: TextAllowed(g, n.id, text)
    {
      NodeTextsMeaning(g, n);
    }
  }

  lemma NodeTextsMeaning(g: Graph, n: Node)
    ensures NodeTextsAllowed(g, n) <==> forall text | HoldsText(n, text) :: TextAllowed(g, n.id, text)
  {
    hide TextAllowed;
    var c := n.config;
    if forall text | HoldsText(n, text) :: TextAllowed(g, n.id, text) {
      assert forall text | text in {c.prompt, c.title, c.body, c.headBranch, c.baseBranch, c.issueKey, c.arguments} ::
        HoldsText(n, text) ==> TextAllowed(g, n.id, text);
    }
  }

  // ----- the pushing ancestor

  /** `PushingAncestor`: the first pusher a range over a Go map comes upon, so any of them. */
  method PushingAncestor(g: Graph, id: string) returns (r: Option<string>)
    ensures r.None? <==> id !in g.Ids() || Pushers(g, id) == {}
    ensures r.Some? ==> r.value in Pushers(g, id)
  {
    var ancestors := Ancestors(g);
    if id !in ancestors {
      return None;
    }
    PushersAmong(g, id, ancestors[id]);
    var pushers := set v | v in ancestors[id] && IsPusher(g, v);
    if pushers == {} {
      r := None;
    } else {
      var v :| v in pushers;
      r := Some(v);
    }
  }

  /** On an accepted graph the choice does not depend on the order of the map: there is one pusher. */
  lemma PushingAncestorIsUnique(g: Graph, isJsonObject: string -> bool, n: Node, a: string, b: string)
    requires Acceptable(g, isJsonObject) && n in g.nodes && NeedsPusher(n)
    requires a in Pushers(g, n.id) && b in Pushers(g, n.id)
    ensures a == b
  {
    hide Structured, TextAllowed, HoldsText;
    if a != b {
      SubsetSize({a, b}, Pushers(g, n.id));
    }
  }
}
