/**
 What each of the messages of `Validate` (backend/internal/workflow/graph.go:174-338) says about the graph: whatever
 is reported is the case.
 */
module Problems {
  import opened Wrappers
  import opened Graphs
  import opened Template
  import opened Validation

  // ----- the messages

  predicate Lacks(n: Node, isJsonObject: string -> bool, issue: FieldIssue) {
    var c := n.config;
    match issue
    case AgentMissing => n.kind.Agent? && c.agentId == ""
    case PromptBlank => n.kind.Agent? && Blank(c.prompt)
    case TitleBlank => n.kind.GitHubPR? && Blank(c.title)
    case IssueKeyBlank => n.kind.JiraComment? && Blank(c.issueKey)
    case CommentBlank => n.kind.JiraComment? && Blank(c.body)
    case QueryBlank => n.kind.TriggerJira? && Blank(c.jql)
    case ServerMissing => n.kind.MCPCall? && Blank(c.mcpServerId)
    case ToolMissing => n.kind.MCPCall? && Blank(c.toolName)
    case ArgumentsNotAnObject => n.kind.MCPCall? && !Blank(c.arguments) && !isJsonObject(c.arguments)
  }

  /** Node `i` is a trigger, and nothing before its kind was looked at spoke against it. */
  predicate IsTriggerAt(nodes: seq<Node>, i: nat) {
    && i < |nodes| && nodes[i].kind.IsTrigger() && KnownKind(nodes[i].kind) && !Blank(nodes[i].id)
    && forall j | 0 <= j < i :: nodes[j].id != nodes[i].id
  }

  function TriggersAt(nodes: seq<Node>): set<nat> {
    set i: nat | i < |nodes| && IsTriggerAt(nodes, i)
  }

  /** No node with a usable id has it. */
  predicate Unnamed(g: Graph, id: string) {
    forall n | n in g.nodes && n.id == id :: Blank(id)
  }

  /** The reference stands in a rendered field of the node `id`. */
  ghost predicate RefersFrom(g: Graph, id: string, ref: Ref) {
    exists n, text :: n in g.nodes && n.id == id && HoldsText(n, text)
      && RefsIn(text).Ok? && ref in RefsIn(text).value && ref.root == RootSteps
  }

  ghost predicate IsReal(g: Graph, isJsonObject: string -> bool, p: Problem) {
    match p
    case NoNodes => g.nodes == []
    case MissingId => exists n :: n in g.nodes && Blank(n.id)
    case DuplicateId(id) => exists i, j :: 0 <= i < j < |g.nodes| && g.nodes[i].id == id == g.nodes[j].id
    case UnknownKind(id, kind) => kind.Unknown? && exists n :: n in g.nodes && n.id == id && n.kind == kind
    case BadField(id, issue) => exists n :: n in g.nodes && n.id == id && Lacks(n, isJsonObject, issue)
    case NoTrigger => TriggersAt(g.nodes) == {}
    case ManyTriggers(count) => count == |TriggersAt(g.nodes)| > 1
    case EdgeFromNowhere(from) => Unnamed(g, from) && exists e :: e in g.edges && e.from == from
    case EdgeToNowhere(to) => Unnamed(g, to) && exists e :: e in g.edges && e.to == to
    case SelfEdge(id) => Edge(id, id) in g.edges
    case RepeatedEdge(e) => exists i, j :: 0 <= i < j < |g.edges| && g.edges[i] == e == g.edges[j]
    case EdgeIntoTrigger(id) =>
      (exists e :: e in g.edges && e.to == id) && exists n :: n in g.nodes && n.id == id && n.kind.IsTrigger()
    case Cyclic => HasCycle(g.edges)
    case Unreachable(id) =>
      exists t, n :: t in g.nodes && t.kind.IsTrigger() && n in g.nodes && n.id == id && !Reaches(g.edges, t.id, id)
    case BadTemplate(id, error) =>
      exists n, text :: n in g.nodes && n.id == id && HoldsText(n, text) && RefsIn(text) == Err(error)
    case RefToNowhere(id, ref) => RefersFrom(g, id, ref) && Unnamed(g, ref.node)
    case RefNotBefore(id, ref) => RefersFrom(g, id, ref) && !Before(g.edges, ref.node, id)
    case NoPusher(id) => Pushers(g, id) == {} && exists n :: n in g.nodes && n.id == id && NeedsPusher(n)
    case ManyPushers(id, pushers) =>
      pushers == Pushers(g, id) && |pushers| > 1 && exists n :: n in g.nodes && n.id == id && NeedsPusher(n)
  }

  // ----- node by node

  lemma FieldIssuesAreReal(n: Node, isJsonObject: string -> bool, issue: FieldIssue)
    requires issue in FieldIssues(n, isJsonObject)
    ensures Lacks(n, isJsonObject, issue)
  {
    hide Blank;
  }

  lemma SeenNode(before: seq<Node>, id: string) returns (i: nat)
    requires id in SeenIds(before)
    ensures i < |before| && before[i].id == id && !Blank(id)
  {
    i :| i < |before| && before[i].id == id && !Blank(before[i].id);
  }

  lemma NodeProblemIsReal(g: Graph, isJsonObject: string -> bool, k: nat, p: Problem)
    requires k < |g.nodes| && p in NodeProblems(g.nodes[..k], g.nodes[k], isJsonObject)
    ensures IsReal(g, isJsonObject, p)
  {
    var n := g.nodes[k];
    assert n in g.nodes;
    if Blank(n.id) {
    } else if n.id in SeenIds(g.nodes[..k]) {
      var i := SeenNode(g.nodes[..k], n.id);
    } else if KnownKind(n.kind) {
      FieldIssuesAreReal(n, isJsonObject, p.issue);
    }
  }

  lemma {:induction false} NodeReportIsReal(g: Graph, isJsonObject: string -> bool, k: nat, p: Problem)
    requires k <= |g.nodes| && p in NodeReport(g.nodes[..k], isJsonObject)
    ensures IsReal(g, isJsonObject, p)
  {
    hide IsReal, NodeProblems;
    if k > 0 {
      assert g.nodes[..k][..k - 1] == g.nodes[..k - 1];
      if p in NodeReport(g.nodes[..k - 1], isJsonObject) {
        NodeReportIsReal(g, isJsonObject, k - 1, p);
      } else {
        NodeProblemIsReal(g, isJsonObject, k - 1, p);
      }
    }
  }

  lemma SeenMeaning(nodes: seq<Node>, k: nat)
    requires k < |nodes|
    ensures CountsAsTrigger(nodes[..k], nodes[k]) <==> IsTriggerAt(nodes, k)
  {
    if nodes[k].id in SeenIds(nodes[..k]) {
      var i := SeenNode(nodes[..k], nodes[k].id);
    }
    if j :| 0 <= j < k && nodes[j].id == nodes[k].id {
      assert nodes[..k][j] in nodes[..k];
    }
  }

  lemma TriggersSnoc(nodes: seq<Node>, k: nat)
    requires k + 1 == |nodes|
    ensures TriggersAt(nodes) == TriggersAt(nodes[..k]) + (if IsTriggerAt(nodes, k) then {k} else {})
    ensures k !in TriggersAt(nodes[..k])
  {
    forall i: nat | i < k ensures IsTriggerAt(nodes, i) <==> IsTriggerAt(nodes[..k], i) {
      SamePrefix(nodes, k, i);
    }
    hide IsTriggerAt;
  }

  lemma SamePrefix(nodes: seq<Node>, k: nat, i: nat)
    requires i < k <= |nodes|
    ensures IsTriggerAt(nodes, i) <==> IsTriggerAt(nodes[..k], i)
  {
    assert forall j | 0 <= j < k :: nodes[..k][j] == nodes[j];
  }

  lemma {:induction false} TriggerCountMeaning(nodes: seq<Node>)
    ensures TriggerCount(nodes) == |TriggersAt(nodes)|
  {
    if nodes != [] {
      var k := |nodes| - 1;
      TriggerCountMeaning(nodes[..k]);
      SeenMeaning(nodes, k);
      TriggersSnoc(nodes, k);
      hide CountsAsTrigger, IsTriggerAt, TriggersAt;
    }
  }

  // ----- edge by edge

  lemma UnseenIsUnnamed(g: Graph, id: string)
    requires id !in SeenIds(g.nodes)
    ensures Unnamed(g, id)
  {
  }

  lemma EdgeProblemIsReal(g: Graph, isJsonObject: string -> bool, k: nat, p: Problem)
    requires k < |g.edges| && p in EdgeProblems(g, g.edges[..k], g.edges[k])
    ensures IsReal(g, isJsonObject, p)
  {
    hide Unnamed, SeenIds;
    var e := g.edges[k];
    assert e in g.edges && e == Edge(e.from, e.to);
    if e.from !in SeenIds(g.nodes) {
      UnseenIsUnnamed(g, e.from);
    } else if e.to !in SeenIds(g.nodes) {
      UnseenIsUnnamed(g, e.to);
    } else if e.from != e.to && e in g.edges[..k] {
      var i :| 0 <= i < k && g.edges[..k][i] == e;
      assert g.edges[i] == e;
    }
  }

  lemma {:induction false} EdgeReportIsReal(g: Graph, isJsonObject: string -> bool, k: nat, p: Problem)
    requires k <= |g.edges| && p in EdgeReport(g, g.edges[..k])
    ensures IsReal(g, isJsonObject, p)
  {
    hide IsReal, EdgeProblems;
    if k > 0 {
      assert g.edges[..k][..k - 1] == g.edges[..k - 1];
      if p in EdgeReport(g, g.edges[..k - 1]) {
        EdgeReportIsReal(g, isJsonObject, k - 1, p);
      } else {
        EdgeProblemIsReal(g, isJsonObject, k - 1, p);
      }
    }
  }

  // ----- the flow

  lemma {:induction false} GatherHas<T>(xs: seq<T>, f: T -> seq<Problem>, p: Problem) returns (x: T)
    requires p in Gather(xs, f)
    ensures x in xs && p in f(x)
  {
    var k := |xs| - 1;
    if p in f(xs[k]) {
      x := xs[k];
    } else {
      x := GatherHas(xs[..k], f, p);
    }
  }

  lemma {:induction false} TriggerOfIsOne(nodes: seq<Node>)
    requires TriggerOf(nodes).Some?
    ensures TriggerOf(nodes).value in nodes && TriggerOf(nodes).value.kind.IsTrigger()
  {
    if !nodes[0].kind.IsTrigger() {
      TriggerOfIsOne(nodes[1..]);
    }
  }

  lemma TextProblemIsReal(g: Graph, isJsonObject: string -> bool, n: Node, text: string, p: Problem)
    requires n in g.nodes && HoldsText(n, text) && p in TextProblems(g, n.id)(text)
    ensures IsReal(g, isJsonObject, p)
  {
    hide HoldsText, RefsIn, SeenIds, Unnamed, Before;
    match RefsIn(text)
    case Err(_) =>
    case Ok(refs) =>
      var ref := GatherHas(refs, RefProblems(g, n.id), p);
      assert RefersFrom(g, n.id, ref);
      if ref.node !in SeenIds(g.nodes) {
        UnseenIsUnnamed(g, ref.node);
      }
  }

  lemma TemplateProblemIsReal(g: Graph, isJsonObject: string -> bool, n: Node, p: Problem)
    requires n in g.nodes && p in TemplateProblems(g)(n)
    ensures IsReal(g, isJsonObject, p)
  {
    hide IsReal, Templates, HoldsText;
    var text := GatherHas(Templates(n), TextProblems(g, n.id), p);
    TemplatesMeaning(n);
    TextProblemIsReal(g, isJsonObject, n, text, p);
  }

  lemma PRProblemIsReal(g: Graph, isJsonObject: string -> bool, n: Node, p: Problem)
    requires n in g.nodes && p in PRProblems(g)(n)
    ensures IsReal(g, isJsonObject, p)
  {
    hide NeedsPusher, Pushers;
  }

  lemma ReachProblemIsReal(g: Graph, isJsonObject: string -> bool, t: Node, n: Node, p: Problem)
    requires t in g.nodes && t.kind.IsTrigger() && n in g.nodes && p in ReachProblems(g, t.id)(n)
    ensures IsReal(g, isJsonObject, p)
  {
    hide Reaches;
  }

  lemma CycleIsReal(g: Graph, isJsonObject: string -> bool)
    requires HasCycle(g.edges)
    ensures IsReal(g, isJsonObject, Cyclic)
  {
  }

  lemma FlowProblemIsReal(g: Graph, isJsonObject: string -> bool, p: Problem)
    requires p in FlowReport(g)
    ensures IsReal(g, isJsonObject, p)
  {
    hide IsReal, HasCycle, TriggerOf;
    if HasCycle(g.edges) {
      CycleIsReal(g, isJsonObject);
    } else {
      TriggerOfIsOne(g.nodes);
      var t := TriggerOf(g.nodes).value;
      if p in Gather(g.nodes, ReachProblems(g, t.id)) {
        var n := GatherHas(g.nodes, ReachProblems(g, t.id), p);
        ReachProblemIsReal(g, isJsonObject, t, n, p);
      } else if p in Gather(g.nodes, TemplateProblems(g)) {
        var n := GatherHas(g.nodes, TemplateProblems(g), p);
        TemplateProblemIsReal(g, isJsonObject, n, p);
      } else {
        var n := GatherHas(g.nodes, PRProblems(g), p);
        PRProblemIsReal(g, isJsonObject, n, p);
      }
    }
  }

  /** Everything `Validate` reports is the case. */
  lemma EveryProblemIsReal(g: Graph, isJsonObject: string -> bool, p: Problem)
    requires p in Report(g, isJsonObject)
    ensures IsReal(g, isJsonObject, p)
  {
    hide FlowReport, NodeReport, EdgeReport, TriggerCount;
    if g.nodes != [] {
      assert g.nodes[..|g.nodes|] == g.nodes && g.edges[..|g.edges|] == g.edges;
      if p in NodeReport(g.nodes, isJsonObject) {
        NodeReportIsReal(g, isJsonObject, |g.nodes|, p);
      } else if p in TriggerReport(TriggerCount(g.nodes)) {
        TriggerCountMeaning(g.nodes);
      } else if p in EdgeReport(g, g.edges) {
        EdgeReportIsReal(g, isJsonObject, |g.edges|, p);
      } else {
        FlowProblemIsReal(g, isJsonObject, p);
      }
    }
  }
}
