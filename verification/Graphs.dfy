/**
 Workflow graphs (backend/internal/workflow/graph.go): levelling, reachability and ancestors.

 What the loops compute is stated through paths: a node's level is the length of the longest path into
 it, levelling fails exactly on a cycle, and the two closures are the paths of at least one and of at
 least no edge.
 */
module Graphs {
  import opened Wrappers

  datatype NodeKind =
    | TriggerManual | TriggerWebhook | TriggerJira
    | Agent | GitHubPR | JiraComment | MCPCall
    | Unknown(name: string)
  {
    predicate IsTrigger() {
      TriggerManual? || TriggerWebhook? || TriggerJira? || (Unknown? && "trigger." <= name)
    }
  }

  datatype NodeConfig = NodeConfig(
    agentId: string, prompt: string, autoPush: bool,
    title: string, body: string, headBranch: string, baseBranch: string,
    issueKey: string, jql: string,
    mcpServerId: string, toolName: string, arguments: string)

  datatype Node = Node(id: string, kind: NodeKind, config: NodeConfig)

  datatype Edge = Edge(from: string, to: string)

  function IdsOf(nodes: seq<Node>): set<string> {
    set n | n in nodes :: n.id
  }

  predicate DistinctIds(nodes: seq<Node>) {
    forall i, j | 0 <= i < j < |nodes| :: nodes[i].id != nodes[j].id
  }

  datatype Graph = Graph(nodes: seq<Node>, edges: seq<Edge>)
  {
    function Ids(): set<string> {
      IdsOf(nodes)
    }

    /** Go's `g.Node(id)`: the first node that carries the id. */
    function Find(id: string): Option<Node> {
      FindIn(nodes, id)
    }

    predicate UniqueIds() {
      DistinctIds(nodes)
    }

    predicate KnownEndpoints() {
      forall e | e in edges :: e.from in Ids() && e.to in Ids()
    }
  }

  function FindIn(nodes: seq<Node>, id: string): (r: Option<Node>)
    ensures r.Some? <==> exists n | n in nodes :: n.id == id
    ensures r.Some? ==> r.value in nodes && r.value.id == id
  {
    if nodes == [] then None
    else if nodes[0].id == id then Some(nodes[0])
    else FindIn(nodes[1..], id)
  }

  // ----- paths

  ghost predicate IsPath(edges: seq<Edge>, p: seq<string>) {
    p != [] && forall i | 0 <= i < |p| - 1 :: Edge(p[i], p[i + 1]) in edges
  }

  ghost predicate PathFrom(edges: seq<Edge>, u: string, v: string, p: seq<string>) {
    IsPath(edges, p) && p[0] == u && p[|p| - 1] == v
  }

  /** `v` can be reached from `u`; every node reaches itself. */
  ghost predicate Reaches(edges: seq<Edge>, u: string, v: string) {
    exists p :: PathFrom(edges, u, v, p)
  }

  /** `u` comes before `v`: a path with at least one edge. */
  ghost predicate Before(edges: seq<Edge>, u: string, v: string) {
    exists p :: PathFrom(edges, u, v, p) && |p| >= 2
  }

  ghost predicate HasCycle(edges: seq<Edge>) {
    exists u :: Before(edges, u, u)
  }

  lemma ReachesSelf(edges: seq<Edge>, u: string)
    ensures Reaches(edges, u, u)
  {
    assert PathFrom(edges, u, u, [u]);
  }

  lemma ReachesStep(edges: seq<Edge>, u: string, v: string, w: string)
    requires Reaches(edges, u, v) && Edge(v, w) in edges
    ensures Reaches(edges, u, w) && Before(edges, u, w)
  {
    var p :| PathFrom(edges, u, v, p);
    assert PathFrom(edges, u, w, p + [w]);
  }

  lemma BeforeByFirstEdge(edges: seq<Edge>, u: string, w: string)
    requires Before(edges, u, w)
    ensures exists v :: Edge(u, v) in edges && Reaches(edges, v, w)
  {
    var p :| PathFrom(edges, u, w, p) && |p| >= 2;
    assert PathFrom(edges, p[1], w, p[1..]);
    assert Edge(p[0], p[0 + 1]) in edges;
  }

  lemma StepBefore(edges: seq<Edge>, u: string, v: string, w: string)
    requires Edge(u, v) in edges && Reaches(edges, v, w)
    ensures Before(edges, u, w) && Reaches(edges, u, w)
  {
    var p :| PathFrom(edges, v, w, p);
    assert PathFrom(edges, u, w, [u] + p);
  }

  /** A set closed under edges holds everything reachable from it. */
  lemma ClosedSetHoldsPath(edges: seq<Edge>, s: set<string>, p: seq<string>)
    requires IsPath(edges, p) && p[0] in s
    requires forall e | e in edges && e.from in s :: e.to in s
    ensures p[|p| - 1] in s
  {
    if |p| > 1 {
      assert Edge(p[0], p[0 + 1]) in edges;
      ClosedSetHoldsPath(edges, s, p[1..]);
    }
  }

  lemma ClosedSetHoldsPathBackwards(edges: seq<Edge>, s: set<string>, p: seq<string>)
    requires IsPath(edges, p) && p[|p| - 1] in s
    requires forall e | e in edges && e.to in s :: e.from in s
    ensures p[0] in s
  {
    if |p| > 1 {
      assert Edge(p[|p| - 2], p[|p| - 2 + 1]) in edges;
      ClosedSetHoldsPathBackwards(edges, s, p[..|p| - 1]);
    }
  }

  // ----- adjacency

  /** Go's `next[id]`: the heads of the edges leaving `id`, in edge order. */
  function Outs(edges: seq<Edge>, id: string): (r: seq<string>)
    ensures forall v :: v in r <==> Edge(id, v) in edges
  {
    if edges == [] then []
    else (if edges[0].from == id then [edges[0].to] else []) + Outs(edges[1..], id)
  }

  function Ins(edges: seq<Edge>, id: string): (r: seq<string>)
    ensures forall v :: v in r <==> Edge(v, id) in edges
  {
    if edges == [] then []
    else (if edges[0].to == id then [edges[0].from] else []) + Ins(edges[1..], id)
  }

  // ----- closures

  function Tos(edges: seq<Edge>): set<string> {
    set e | e in edges :: e.to
  }

  function Froms(edges: seq<Edge>): set<string> {
    set e | e in edges :: e.from
  }

  /** The inner loop of `reachableFrom`: marks and queues the heads not seen before. */
  method Discover(next: seq<string>, seen0: set<string>, queue0: seq<string>)
    returns (seen: set<string>, queue: seq<string>)
    ensures seen == seen0 + (set v | v in next)
    ensures forall v :: v in queue <==> v in queue0 || v in seen - seen0
    ensures seen == seen0 ==> queue == queue0
  {
    seen, queue := seen0, queue0;
    for i := 0 to |next|
      invariant seen == seen0 + (set v | v in next[..i])
      invariant forall v :: v in queue <==> v in queue0 || v in seen - seen0
      invariant seen == seen0 ==> queue == queue0
    {
      assert next[..i + 1] == next[..i] + [next[i]];
      if next[i] !in seen {
        seen := seen + {next[i]};
        queue := queue + [next[i]];
      }
    }
    assert next[..|next|] == next;
  }

  /** `reachableFrom`: breadth-first from `start`. */
  method ReachableFrom(g: Graph, start: string) returns (seen: set<string>)
    ensures forall v :: v in seen <==> Reaches(g.edges, start, v)
  {
    seen := {start};
    var queue := [start];
    ReachesSelf(g.edges, start);
    while queue != []
      invariant start in seen && seen <= {start} + Tos(g.edges)
      invariant forall v | v in queue :: v in seen
      invariant forall v | v in seen :: Reaches(g.edges, start, v)
      invariant forall e | e in g.edges && e.from in seen && e.from !in queue :: e.to in seen
      decreases {start} + Tos(g.edges) - seen, |queue|
    {
      var cur := queue[0];
      var next := Outs(g.edges, cur);
      ghost var seen0, queue0 := seen, queue;
      assert forall v | v in queue0 :: v == cur || v in queue0[1..];
      forall v | v in next ensures Reaches(g.edges, start, v) && v in Tos(g.edges) {
        ReachesStep(g.edges, start, cur, v);
        assert Edge(cur, v).to in Tos(g.edges);
      }
      seen, queue := Discover(next, seen, queue[1..]);
      assert forall e | e in g.edges && e.from == cur :: Edge(cur, e.to) in g.edges && e.to in next;
    }
    forall v | Reaches(g.edges, start, v) ensures v in seen {
      var p :| PathFrom(g.edges, start, v, p);
      ClosedSetHoldsPath(g.edges, seen, p);
    }
  }

  /** The inner loop of `ancestors`: walk the edges backwards; a node can be queued more than once. */
  method AncestorsOf(g: Graph, id: string) returns (found: set<string>)
    ensures forall v :: v in found <==> Before(g.edges, v, id)
  {
    found := {};
    var queue := Ins(g.edges, id);
    forall v | v in queue ensures Before(g.edges, v, id) {
      ReachesSelf(g.edges, id);
      StepBefore(g.edges, v, id, id);
    }
    while queue != []
      invariant found <= Froms(g.edges) && forall v | v in queue :: v in Froms(g.edges)
      invariant forall v | v in found || v in queue :: Before(g.edges, v, id)
      invariant forall e | e in g.edges && (e.to == id || e.to in found) :: e.from in found || e.from in queue
      decreases Froms(g.edges) - found, |queue|
    {
      var cur := queue[0];
      var rest := queue[1..];
      assert forall v | v in queue :: v == cur || v in rest;
      if cur in found {
        queue := rest;
        continue;
      }
      found := found + {cur};
      queue := rest + Ins(g.edges, cur);
      forall v | v in Ins(g.edges, cur) ensures Before(g.edges, v, id) && v in Froms(g.edges) {
        assert Edge(v, cur) in g.edges;
        assert Edge(v, cur).from in Froms(g.edges);
        BeforeIsReach(g.edges, cur, id);
        StepBefore(g.edges, v, cur, id);
      }
      assert forall e | e in g.edges && e.to == cur :: Edge(e.from, cur) in g.edges && e.from in Ins(g.edges, cur);
    }
    forall v | Before(g.edges, v, id) ensures v in found {
      BeforeByFirstEdge(g.edges, v, id);
      var w :| Edge(v, w) in g.edges && Reaches(g.edges, w, id);
      var p :| PathFrom(g.edges, w, id, p);
      ClosedSetHoldsPathBackwards(g.edges, found + {id}, p);
      assert Edge(v, w).from == v;
    }
  }

  lemma BeforeIsReach(edges: seq<Edge>, u: string, v: string)
    requires Before(edges, u, v)
    ensures Reaches(edges, u, v)
  {
  }

  /** `ancestors`: for every node, the nodes that come before it. */
  method Ancestors(g: Graph) returns (out: map<string, set<string>>)
    ensures out.Keys == g.Ids()
    ensures forall id, v | id in out :: v in out[id] <==> Before(g.edges, v, id)
  {
    out := map[];
    for i := 0 to |g.nodes|
      invariant out.Keys == set n | n in g.nodes[..i] :: n.id
      invariant forall id, v | id in out :: v in out[id] <==> Before(g.edges, v, id)
    {
      var found := AncestorsOf(g, g.nodes[i].id);
      out := out[g.nodes[i].id := found];
      assert g.nodes[..i + 1] == g.nodes[..i] + [g.nodes[i]];
    }
    assert g.nodes[..|g.nodes|] == g.nodes;
  }
}
