/** Kahn levelling, `Graph.Levels` in backend/internal/workflow/graph.go. */
module Levelling {
  import opened Wrappers
  import opened Graphs

  datatype LevelError = GraphHasCycle

  // ----- counting edges

  /** The edges into `v` that leave nodes outside `done`, with multiplicity. */
  function InCount(edges: seq<Edge>, v: string, done: set<string>): nat {
    if edges == [] then 0
    else (if edges[0].to == v && edges[0].from !in done then 1 else 0) + InCount(edges[1..], v, done)
  }

  function Occurrences(heads: seq<string>, v: string): nat {
    if heads == [] then 0 else (if heads[0] == v then 1 else 0) + Occurrences(heads[1..], v)
  }

  lemma {:induction false} InCountZero(edges: seq<Edge>, v: string, done: set<string>)
    ensures InCount(edges, v, done) == 0 <==> forall u | Edge(u, v) in edges :: u in done
  {
    if edges != [] {
      InCountZero(edges[1..], v, done);
      assert edges == [edges[0]] + edges[1..];
      if edges[0].to == v {
        assert edges[0] == Edge(edges[0].from, v);
      }
    }
  }

  /** Retiring `n` takes away exactly the edges that leave it. */
  lemma {:induction false} InCountRetire(edges: seq<Edge>, v: string, done: set<string>, n: string)
    requires n !in done
    ensures InCount(edges, v, done) == InCount(edges, v, done + {n}) + Occurrences(Outs(edges, n), v)
  {
    if edges != [] {
      InCountRetire(edges[1..], v, done, n);
      if edges[0].from == n {
        assert Outs(edges, n)[1..] == Outs(edges[1..], n);
      } else {
        assert Outs(edges, n) == Outs(edges[1..], n);
      }
    }
  }

  lemma {:induction false} InCountAppend(edges: seq<Edge>, e: Edge, v: string, done: set<string>)
    ensures InCount(edges + [e], v, done)
         == InCount(edges, v, done) + (if e.to == v && e.from !in done then 1 else 0)
  {
    if edges == [] {
      assert edges + [e] == [e] && [e][1..] == [];
    } else {
      assert (edges + [e])[1..] == edges[1..] + [e];
      InCountAppend(edges[1..], e, v, done);
    }
  }

  lemma {:induction false} OutsAppend(edges: seq<Edge>, e: Edge, u: string)
    ensures Outs(edges + [e], u) == Outs(edges, u) + (if e.from == u then [e.to] else [])
  {
    if edges == [] {
      assert edges + [e] == [e] && [e][1..] == [];
    } else {
      assert (edges + [e])[1..] == edges[1..] + [e];
      OutsAppend(edges[1..], e, u);
    }
  }

  lemma {:induction false} OccurrencesAppend(heads: seq<string>, h: string, v: string)
    ensures Occurrences(heads + [h], v) == Occurrences(heads, v) + (if h == v then 1 else 0)
  {
    if heads == [] {
      assert heads + [h] == [h] && [h][1..] == [];
    } else {
      assert (heads + [h])[1..] == heads[1..] + [h];
      OccurrencesAppend(heads[1..], h, v);
    }
  }

  // ----- what a levelling is

  function AtRank(nodes: seq<Node>, rank: map<string, nat>, k: nat): seq<Node> {
    if nodes == [] then []
    else (if nodes[0].id in rank && rank[nodes[0].id] == k then [nodes[0]] else []) + AtRank(nodes[1..], rank, k)
  }

  /** The ranks given so far to the nodes of `rank` are those of the finished levels. */
  ghost predicate PartialRanking(g: Graph, levels: seq<seq<Node>>, rank: map<string, nat>) {
    && rank.Keys <= g.Ids()
    && (forall id | id in rank :: rank[id] < |levels|)
    && (forall k | 0 <= k < |levels| :: levels[k] != [] && levels[k] == AtRank(g.nodes, rank, k))
    && (forall e | e in g.edges && e.to in rank :: e.from in rank && rank[e.from] < rank[e.to])
    && (forall id | id in rank && rank[id] > 0 ::
          exists u :: Edge(u, id) in g.edges && u in rank && rank[u] == rank[id] - 1)
  }

  ghost predicate IsRanking(g: Graph, levels: seq<seq<Node>>, rank: map<string, nat>) {
    PartialRanking(g, levels, rank) && rank.Keys == g.Ids()
  }

  /** Some node waits for ever: on a node that does not exist, or on itself. */
  ghost predicate Blocked(g: Graph) {
    || (exists e :: e in g.edges && e.from !in g.Ids() && e.to in g.Ids())
    || (exists p :: IsCycleWithin(g.edges, g.Ids(), p))
  }

  ghost predicate IsCycleWithin(edges: seq<Edge>, s: set<string>, p: seq<string>) {
    IsPath(edges, p) && |p| >= 2 && p[0] == p[|p| - 1] && forall v | v in p :: v in s
  }

  // ----- the loops

  ghost predicate Counted(edges: seq<Edge>, indegree: map<string, int>, next: map<string, seq<string>>) {
    && (forall v | v in indegree :: indegree[v] == InCount(edges, v, {}))
    && (forall v | v !in indegree :: InCount(edges, v, {}) == 0)
    && (forall u :: Outs(edges, u) == HeadsOf(next, u))
  }

  /** A missing map entry reads as the empty slice. */
  function HeadsOf(next: map<string, seq<string>>, u: string): seq<string> {
    if u in next then next[u] else []
  }

  method ZeroIndegrees(g: Graph) returns (indegree: map<string, int>)
    ensures indegree.Keys == g.Ids()
    ensures forall v | v in indegree :: indegree[v] == 0
  {
    indegree := map[];
    for i := 0 to |g.nodes|
      invariant indegree.Keys == IdsOf(g.nodes[..i])
      invariant forall v | v in indegree :: indegree[v] == 0
    {
      assert g.nodes[..i + 1] == g.nodes[..i] + [g.nodes[i]];
      indegree := indegree[g.nodes[i].id := 0];
    }
    assert g.nodes[..|g.nodes|] == g.nodes;
  }

  method CountEdge(ghost edges: seq<Edge>, e: Edge, indegree0: map<string, int>, next0: map<string, seq<string>>)
    returns (indegree: map<string, int>, next: map<string, seq<string>>)
    requires Counted(edges, indegree0, next0)
    ensures indegree.Keys == indegree0.Keys + {e.to}
    ensures Counted(edges + [e], indegree, next)
  {
    CountedAppend(edges, e, indegree0, next0);
    next := next0[e.from := HeadsOf(next0, e.from) + [e.to]];
    indegree := indegree0[e.to := (if e.to in indegree0 then indegree0[e.to] else 0) + 1];
  }

  method CountIndegrees(g: Graph) returns (indegree: map<string, int>, next: map<string, seq<string>>)
    ensures indegree.Keys == g.Ids() + Tos(g.edges)
    ensures Counted(g.edges, indegree, next)
  {
    indegree := ZeroIndegrees(g);
    next := map[];
    for i := 0 to |g.edges|
      invariant indegree.Keys == g.Ids() + Tos(g.edges[..i])
      invariant Counted(g.edges[..i], indegree, next)
    {
      assert g.edges[..i + 1] == g.edges[..i] + [g.edges[i]];
      indegree, next := CountEdge(g.edges[..i], g.edges[i], indegree, next);
    }
    assert g.edges[..|g.edges|] == g.edges;
  }

  lemma CountedAppend(edges: seq<Edge>, e: Edge, indegree: map<string, int>, next: map<string, seq<string>>)
    requires Counted(edges, indegree, next)
    ensures Counted(edges + [e], indegree[e.to := (if e.to in indegree then indegree[e.to] else 0) + 1],
                    next[e.from := HeadsOf(next, e.from) + [e.to]])
  {
    hide InCount, Outs;
    forall v ensures InCount(edges + [e], v, {}) == InCount(edges, v, {}) + (if e.to == v then 1 else 0) {
      InCountAppend(edges, e, v, {});
    }
    var next' := next[e.from := HeadsOf(next, e.from) + [e.to]];
    forall u ensures Outs(edges + [e], u) == HeadsOf(next', u) {
      OutsAppend(edges, e, u);
      assert HeadsOf(next', u) == if u == e.from then HeadsOf(next, u) + [e.to] else HeadsOf(next, u);
    }
  }

  function Lowered(d: int, k: nat): int {
    if d <= 0 then d else if k >= d then 0 else d - k
  }

  method ReleaseHeads(heads: seq<string>, indegree0: map<string, int>) returns (indegree: map<string, int>)
    requires forall h | h in heads :: h in indegree0
    ensures indegree.Keys == indegree0.Keys
    ensures forall v | v in indegree :: indegree[v] == Lowered(indegree0[v], Occurrences(heads, v))
  {
    indegree := indegree0;
    for i := 0 to |heads|
      invariant indegree.Keys == indegree0.Keys
      invariant forall v | v in indegree :: indegree[v] == Lowered(indegree0[v], Occurrences(heads[..i], v))
    {
      var to := heads[i];
      assert heads[..i + 1] == heads[..i] + [to];
      forall v ensures Occurrences(heads[..i + 1], v) == Occurrences(heads[..i], v) + (if to == v then 1 else 0) {
        OccurrencesAppend(heads[..i], to, v);
      }
      if indegree[to] > 0 {
        indegree := indegree[to := indegree[to] - 1];
      }
    }
    assert heads[..|heads|] == heads;
  }

  /** Only positive counters move, and they do not go below zero. */
  ghost predicate Sinks(before: map<string, int>, after: map<string, int>) {
    && before.Keys == after.Keys
    && forall v | v in before :: if before[v] <= 0 then after[v] == before[v] else after[v] >= 0
  }

  /** Outside `done` and the level `ids`, counters count the edges from nodes outside `done`. */
  ghost predicate Tracks(edges: seq<Edge>, indegree: map<string, int>, done: set<string>, ids: set<string>) {
    forall v | v in indegree && v !in done + ids :: indegree[v] == InCount(edges, v, done)
  }

  lemma ReleaseOne(edges: seq<Edge>, before: map<string, int>, after: map<string, int>, n: string,
                   done: set<string>, ids: set<string>)
    requires before.Keys == after.Keys && n in ids && n !in done
    requires forall v | v in after :: after[v] == Lowered(before[v], Occurrences(Outs(edges, n), v))
    requires Tracks(edges, before, done, ids)
    ensures Tracks(edges, after, done + {n}, ids)
  {
    hide InCount, Occurrences, Outs;
    forall v | v in after && v !in done + {n} + ids ensures after[v] == InCount(edges, v, done + {n}) {
      InCountRetire(edges, v, done, n);
    }
  }

  /** The edges out of a finished level are taken off only once the whole level has been picked. */
  method ReleaseLevel(g: Graph, next: map<string, seq<string>>, level: seq<Node>, indegree0: map<string, int>,
                      ghost done: set<string>)
    returns (indegree: map<string, int>)
    requires forall u :: Outs(g.edges, u) == HeadsOf(next, u)
    requires indegree0.Keys == g.Ids() + Tos(g.edges)
    ensures Sinks(indegree0, indegree)
    ensures DistinctIds(level) && done !! IdsOf(level) && Tracks(g.edges, indegree0, done, IdsOf(level)) ==>
      Tracks(g.edges, indegree, done + IdsOf(level), {})
  {
    hide InCount, Occurrences, Outs;
    ghost var sound := DistinctIds(level) && done !! IdsOf(level) && Tracks(g.edges, indegree0, done, IdsOf(level));
    indegree := indegree0;
    assert done + IdsOf(level[..0]) == done;
    for i := 0 to |level|
      invariant Sinks(indegree0, indegree)
      invariant sound ==> Tracks(g.edges, indegree, done + IdsOf(level[..i]), IdsOf(level))
    {
      var n := level[i];
      var heads := HeadsOf(next, n.id);
      forall h | h in heads ensures h in indegree {
        assert Edge(n.id, h).to in Tos(g.edges);
      }
      ghost var before := indegree;
      indegree := ReleaseHeads(heads, indegree);
      assert level[..i + 1] == level[..i] + [n];
      assert done + IdsOf(level[..i + 1]) == done + IdsOf(level[..i]) + {n.id};
      if sound {
        assert n in level;
        ReleaseOne(g.edges, before, indegree, n.id, done + IdsOf(level[..i]), IdsOf(level));
      }
    }
    assert level[..|level|] == level;
    assert done + IdsOf(level) + IdsOf(level) == done + IdsOf(level) + {};
  }

  function Zeros(nodes: seq<Node>, indegree: map<string, int>): seq<Node> {
    if nodes == [] then []
    else (if nodes[0].id in indegree && indegree[nodes[0].id] == 0 then [nodes[0]] else []) + Zeros(nodes[1..], indegree)
  }

  lemma {:induction false} ZerosAppend(nodes: seq<Node>, n: Node, indegree: map<string, int>)
    ensures Zeros(nodes + [n], indegree)
         == Zeros(nodes, indegree) + (if n.id in indegree && indegree[n.id] == 0 then [n] else [])
  {
    if nodes == [] {
      assert nodes + [n] == [n] && [n][1..] == [];
    } else {
      assert (nodes + [n])[1..] == nodes[1..] + [n] && (nodes + [n])[0] == nodes[0];
      ZerosAppend(nodes[1..], n, indegree);
      var head := if nodes[0].id in indegree && indegree[nodes[0].id] == 0 then [nodes[0]] else [];
      var last := if n.id in indegree && indegree[n.id] == 0 then [n] else [];
      assert head + (Zeros(nodes[1..], indegree) + last) == head + Zeros(nodes[1..], indegree) + last;
    }
  }

  lemma {:induction false} ZerosMembers(nodes: seq<Node>, indegree: map<string, int>)
    ensures forall n :: n in Zeros(nodes, indegree) <==> n in nodes && n.id in indegree && indegree[n.id] == 0
    ensures DistinctIds(nodes) ==> DistinctIds(Zeros(nodes, indegree))
  {
    if nodes != [] {
      ZerosMembers(nodes[1..], indegree);
      assert forall n :: n in nodes <==> n == nodes[0] || n in nodes[1..];
      if DistinctIds(nodes) {
        assert DistinctIds(nodes[1..]);
        forall n | n in Zeros(nodes[1..], indegree) ensures n.id != nodes[0].id {
          var j :| 0 <= j < |nodes[1..]| && nodes[1..][j] == n;
          assert nodes[j + 1] == n;
        }
      }
    }
  }

  method PickLevel(g: Graph, indegree: map<string, int>) returns (level: seq<Node>)
    requires g.Ids() <= indegree.Keys
    ensures level == Zeros(g.nodes, indegree)
  {
    level := [];
    for i := 0 to |g.nodes|
      invariant level == Zeros(g.nodes[..i], indegree)
    {
      var n := g.nodes[i];
      ZerosAppend(g.nodes[..i], n, indegree);
      assert g.nodes[..i + 1] == g.nodes[..i] + [n];
      assert n.id in g.Ids();
      if indegree[n.id] == 0 {
        level := level + [n];
      }
    }
    assert g.nodes[..|g.nodes|] == g.nodes;
  }

  method MarkLevel(level: seq<Node>, indegree0: map<string, int>, remaining0: int)
    returns (indegree: map<string, int>, remaining: int)
    requires IdsOf(level) <= indegree0.Keys
    ensures indegree.Keys == indegree0.Keys && remaining == remaining0 - |level|
    ensures forall v | v in indegree :: indegree[v] == if v in IdsOf(level) then -1 else indegree0[v]
  {
    indegree, remaining := indegree0, remaining0;
    for i := 0 to |level|
      invariant indegree.Keys == indegree0.Keys && remaining == remaining0 - i
      invariant forall v | v in indegree :: indegree[v] == if v in IdsOf(level[..i]) then -1 else indegree0[v]
    {
      assert level[..i + 1] == level[..i] + [level[i]];
      assert level[i].id in IdsOf(level);
      indegree := indegree[level[i].id := -1];
      remaining := remaining - 1;
    }
    assert level[..|level|] == level;
  }

  function CountUndone(nodes: seq<Node>, done: set<string>): nat {
    if nodes == [] then 0 else (if nodes[0].id in done then 0 else 1) + CountUndone(nodes[1..], done)
  }

  lemma {:induction false} CountUndoneAfter(nodes: seq<Node>, indegree: map<string, int>, done: set<string>, ids: set<string>)
    requires forall n | n in nodes :: n.id in indegree && (n.id in done ==> indegree[n.id] != 0)
    requires forall n | n in nodes :: n.id in ids <==> indegree[n.id] == 0
    ensures CountUndone(nodes, done + ids) == CountUndone(nodes, done) - |Zeros(nodes, indegree)|
  {
    if nodes != [] {
      assert nodes[0] in nodes;
      CountUndoneAfter(nodes[1..], indegree, done, ids);
    }
  }

  lemma {:induction false} CountUndoneZero(nodes: seq<Node>, done: set<string>)
    ensures CountUndone(nodes, done) == 0 <==> forall n | n in nodes :: n.id in done
    ensures CountUndone(nodes, {}) == |nodes|
  {
    if nodes != [] {
      CountUndoneZero(nodes[1..], done);
      assert forall n :: n in nodes <==> n == nodes[0] || n in nodes[1..];
    }
  }

  // ----- one more level

  /** Whoever is left out of the finished levels waits for the last of them, or for someone left out too. */
  ghost predicate Late(g: Graph, rank: map<string, nat>, levels: nat) {
    forall v | v in g.Ids() && v !in rank ::
      levels > 0 ==> exists u :: Edge(u, v) in g.edges && (u in rank ==> rank[u] == levels - 1)
  }

  function Extended(rank: map<string, nat>, ids: set<string>, k: nat): (r: map<string, nat>)
    ensures r.Keys == rank.Keys + ids
  {
    rank + map v | v in ids :: k
  }

  lemma {:induction false} AtRankSame(nodes: seq<Node>, rank: map<string, nat>, rank': map<string, nat>, k: nat)
    requires forall n | n in nodes :: (n.id in rank && rank[n.id] == k) <==> (n.id in rank' && rank'[n.id] == k)
    ensures AtRank(nodes, rank, k) == AtRank(nodes, rank', k)
  {
    if nodes != [] {
      assert nodes[0] in nodes;
      AtRankSame(nodes[1..], rank, rank', k);
    }
  }

  lemma {:induction false} AtRankIsZeros(nodes: seq<Node>, rank: map<string, nat>, k: nat, indegree: map<string, int>)
    requires forall n | n in nodes ::
      (n.id in rank && rank[n.id] == k) <==> (n.id in indegree && indegree[n.id] == 0)
    ensures AtRank(nodes, rank, k) == Zeros(nodes, indegree)
  {
    if nodes != [] {
      assert nodes[0] in nodes;
      AtRankIsZeros(nodes[1..], rank, k, indegree);
    }
  }

  /** What one round knows before it picks: the counters are those of the nodes not yet placed. */
  ghost predicate RoundState(g: Graph, levels: seq<seq<Node>>, rank: map<string, nat>, indegree: map<string, int>) {
    && PartialRanking(g, levels, rank) && Late(g, rank, |levels|)
    && Tracks(g.edges, indegree, rank.Keys, {})
  }

  ghost predicate Marked(g: Graph, indegree: map<string, int>, done: set<string>) {
    && indegree.Keys == g.Ids() + Tos(g.edges) && done <= g.Ids()
    && forall v | v in g.Ids() :: if v in done then indegree[v] == -1 else indegree[v] >= 0
  }

  lemma LevelIds(g: Graph, indegree: map<string, int>, done: set<string>, level: seq<Node>)
    requires Marked(g, indegree, done) && level == Zeros(g.nodes, indegree)
    ensures IdsOf(level) <= g.Ids() && IdsOf(level) !! done
    ensures forall v | v in g.Ids() :: v in IdsOf(level) <==> indegree[v] == 0
    ensures CountUndone(g.nodes, done + IdsOf(level)) == CountUndone(g.nodes, done) - |level|
  {
    ZerosMembers(g.nodes, indegree);
    forall n | n in g.nodes ensures n.id in g.Ids() && (n.id in IdsOf(level) <==> indegree[n.id] == 0) {
      assert n.id in g.Ids();
      if indegree[n.id] == 0 {
        assert n in level;
      }
    }
    CountUndoneAfter(g.nodes, indegree, done, IdsOf(level));
  }

  lemma NextRoundLevels(g: Graph, levels: seq<seq<Node>>, rank: map<string, nat>, indegree: map<string, int>, level: seq<Node>)
    requires Marked(g, indegree, rank.Keys) && PartialRanking(g, levels, rank)
    requires level == Zeros(g.nodes, indegree) && level != []
    ensures var rank' := Extended(rank, IdsOf(level), |levels|);
      forall k | 0 <= k < |levels| + 1 :: (levels + [level])[k] != [] && (levels + [level])[k] == AtRank(g.nodes, rank', k)
  {
    var rank' := Extended(rank, IdsOf(level), |levels|);
    LevelIds(g, indegree, rank.Keys, level);
    assert forall n | n in g.nodes :: n.id in g.Ids();
    forall k | 0 <= k < |levels| + 1
      ensures (levels + [level])[k] != [] && (levels + [level])[k] == AtRank(g.nodes, rank', k)
    {
      if k < |levels| {
        AtRankSame(g.nodes, rank, rank', k);
      } else {
        AtRankIsZeros(g.nodes, rank', k, indegree);
      }
    }
  }

  lemma NextRoundEdges(g: Graph, levels: seq<seq<Node>>, rank: map<string, nat>, indegree: map<string, int>, level: seq<Node>)
    requires Marked(g, indegree, rank.Keys) && PartialRanking(g, levels, rank) && Tracks(g.edges, indegree, rank.Keys, {})
    requires level == Zeros(g.nodes, indegree)
    ensures var rank' := Extended(rank, IdsOf(level), |levels|);
      forall e | e in g.edges && e.to in rank' :: e.from in rank' && rank'[e.from] < rank'[e.to]
  {
    var rank' := Extended(rank, IdsOf(level), |levels|);
    LevelIds(g, indegree, rank.Keys, level);
    forall e | e in g.edges && e.to in rank' ensures e.from in rank' && rank'[e.from] < rank'[e.to] {
      if e.to in IdsOf(level) {
        InCountZero(g.edges, e.to, rank.Keys);
        assert Edge(e.from, e.to) in g.edges;
      }
    }
  }

  lemma NextRoundPredecessor(g: Graph, levels: seq<seq<Node>>, rank: map<string, nat>, indegree: map<string, int>,
                             level: seq<Node>, id: string)
    requires Marked(g, indegree, rank.Keys) && RoundState(g, levels, rank, indegree)
    requires level == Zeros(g.nodes, indegree)
    requires var rank' := Extended(rank, IdsOf(level), |levels|); id in rank' && rank'[id] > 0
    ensures var rank' := Extended(rank, IdsOf(level), |levels|);
      exists u :: Edge(u, id) in g.edges && u in rank' && rank'[u] == rank'[id] - 1
  {
    var rank' := Extended(rank, IdsOf(level), |levels|);
    LevelIds(g, indegree, rank.Keys, level);
    if id in IdsOf(level) {
      InCountZero(g.edges, id, rank.Keys);
      var u :| Edge(u, id) in g.edges && (u in rank ==> rank[u] == |levels| - 1);
      assert rank'[u] == rank'[id] - 1;
    } else {
      var u :| Edge(u, id) in g.edges && u in rank && rank[u] == rank[id] - 1;
      assert rank'[u] == rank'[id] - 1;
    }
  }

  lemma NextRoundRanking(g: Graph, levels: seq<seq<Node>>, rank: map<string, nat>, indegree: map<string, int>, level: seq<Node>)
    requires Marked(g, indegree, rank.Keys) && RoundState(g, levels, rank, indegree)
    requires level == Zeros(g.nodes, indegree) && level != []
    ensures PartialRanking(g, levels + [level], Extended(rank, IdsOf(level), |levels|))
  {
    var rank' := Extended(rank, IdsOf(level), |levels|);
    LevelIds(g, indegree, rank.Keys, level);
    NextRoundLevels(g, levels, rank, indegree, level);
    NextRoundEdges(g, levels, rank, indegree, level);
    forall id | id in rank' && rank'[id] > 0
      ensures exists u :: Edge(u, id) in g.edges && u in rank' && rank'[u] == rank'[id] - 1
    {
      NextRoundPredecessor(g, levels, rank, indegree, level, id);
    }
  }

  lemma NextRoundLate(g: Graph, levels: seq<seq<Node>>, rank: map<string, nat>, indegree: map<string, int>, level: seq<Node>)
    requires Marked(g, indegree, rank.Keys) && RoundState(g, levels, rank, indegree)
    requires level == Zeros(g.nodes, indegree)
    ensures Late(g, Extended(rank, IdsOf(level), |levels|), |levels| + 1)
  {
    var rank' := Extended(rank, IdsOf(level), |levels|);
    LevelIds(g, indegree, rank.Keys, level);
    forall v | v in g.Ids() && v !in rank'
      ensures exists u :: Edge(u, v) in g.edges && (u in rank' ==> rank'[u] == |levels|)
    {
      InCountZero(g.edges, v, rank.Keys);
      var u :| Edge(u, v) in g.edges && u !in rank;
      assert u in rank' ==> rank'[u] == |levels|;
    }
  }

  // ----- the stuck case

  lemma {:induction false} Pigeonhole(p: seq<string>, s: set<string>)
    requires (forall v | v in p :: v in s) && |p| > |s|
    ensures exists i, j :: 0 <= i < j < |p| && p[i] == p[j]
  {
    if p[0] in p[1..] {
      var j :| 0 <= j < |p[1..]| && p[1..][j] == p[0];
      assert p[0] == p[j + 1];
    } else {
      assert p == [p[0]] + p[1..];
      Pigeonhole(p[1..], s - {p[0]});
      var i, j :| 0 <= i < j < |p[1..]| && p[1..][i] == p[1..][j];
      assert p[i + 1] == p[j + 1];
    }
  }

  ghost predicate WaitsIn(edges: seq<Edge>, s: set<string>, w: string) {
    exists u :: u in s && Edge(u, w) in edges
  }

  lemma WalkBack(edges: seq<Edge>, s: set<string>, v: string, n: nat) returns (p: seq<string>)
    requires v in s && forall w | w in s :: WaitsIn(edges, s, w)
    ensures |p| == n + 1 && IsPath(edges, p) && forall w | w in p :: w in s
  {
    p := [v];
    for i := 0 to n
      invariant |p| == i + 1 && IsPath(edges, p) && forall w | w in p :: w in s
    {
      assert p[0] in p;
      var u :| u in s && Edge(u, p[0]) in edges;
      p := [u] + p;
    }
  }

  lemma SliceIsCycle(edges: seq<Edge>, s: set<string>, p: seq<string>, i: nat, j: nat)
    requires IsPath(edges, p) && i < j < |p| && p[i] == p[j] && forall w | w in p :: w in s
    ensures IsCycleWithin(edges, s, p[i..j + 1])
  {
    var cycle := p[i..j + 1];
    forall k | 0 <= k < |cycle| - 1 ensures Edge(cycle[k], cycle[k + 1]) in edges {
      assert Edge(p[i + k], p[i + k + 1]) in edges;
    }
  }

  /** Nodes that all wait for one another form a cycle. */
  lemma EveryoneWaitsIsACycle(edges: seq<Edge>, s: set<string>) returns (cycle: seq<string>)
    requires s != {} && forall w | w in s :: WaitsIn(edges, s, w)
    ensures IsCycleWithin(edges, s, cycle)
  {
    var v :| v in s;
    var p := WalkBack(edges, s, v, |s|);
    Pigeonhole(p, s);
    var i, j :| 0 <= i < j < |p| && p[i] == p[j];
    SliceIsCycle(edges, s, p, i, j);
    cycle := p[i..j + 1];
  }

  lemma StuckIsBlocked(g: Graph, levels: seq<seq<Node>>, rank: map<string, nat>, indegree: map<string, int>)
    requires Marked(g, indegree, rank.Keys) && RoundState(g, levels, rank, indegree)
    requires Zeros(g.nodes, indegree) == [] && CountUndone(g.nodes, rank.Keys) > 0
    ensures Blocked(g)
  {
    hide PartialRanking, Late;
    CountUndoneZero(g.nodes, rank.Keys);
    var left := g.Ids() - rank.Keys;
    LevelIds(g, indegree, rank.Keys, []);
    if e :| e in g.edges && e.from !in g.Ids() && e.to in g.Ids() {
    } else {
      forall w | w in left ensures WaitsIn(g.edges, left, w) {
        InCountZero(g.edges, w, rank.Keys);
        var u :| Edge(u, w) in g.edges && u !in rank;
        assert Edge(u, w).from in g.Ids();
      }
      var cycle := EveryoneWaitsIsACycle(g.edges, left);
      assert IsCycleWithin(g.edges, g.Ids(), cycle);
    }
  }

  // ----- Levels

  lemma NextRound(g: Graph, levels: seq<seq<Node>>, rank: map<string, nat>, level: seq<Node>,
                  indegree: map<string, int>, indegree': map<string, int>)
    requires Marked(g, indegree, rank.Keys) && RoundState(g, levels, rank, indegree)
    requires level == Zeros(g.nodes, indegree) && level != []
    requires Tracks(g.edges, indegree', Extended(rank, IdsOf(level), |levels|).Keys, {})
    ensures RoundState(g, levels + [level], Extended(rank, IdsOf(level), |levels|), indegree')
  {
    NextRoundRanking(g, levels, rank, indegree, level);
    NextRoundLate(g, levels, rank, indegree, level);
  }

  /** One round of the loop after its level has been picked. */
  method FinishRound(g: Graph, next: map<string, seq<string>>, level: seq<Node>, indegree0: map<string, int>, remaining0: int,
                     ghost levels: seq<seq<Node>>, ghost rank: map<string, nat>)
    returns (indegree: map<string, int>, remaining: int)
    requires forall u :: Outs(g.edges, u) == HeadsOf(next, u)
    requires Marked(g, indegree0, rank.Keys) && level == Zeros(g.nodes, indegree0) && level != []
    requires remaining0 == CountUndone(g.nodes, rank.Keys)
    ensures indegree.Keys == indegree0.Keys && Marked(g, indegree, rank.Keys + IdsOf(level))
    ensures remaining == CountUndone(g.nodes, rank.Keys + IdsOf(level)) < remaining0
    ensures g.UniqueIds() && RoundState(g, levels, rank, indegree0) ==>
      RoundState(g, levels + [level], Extended(rank, IdsOf(level), |levels|), indegree)
  {
    LevelIds(g, indegree0, rank.Keys, level);
    ZerosMembers(g.nodes, indegree0);
    indegree, remaining := MarkLevel(level, indegree0, remaining0);
    indegree := ReleaseLevel(g, next, level, indegree, rank.Keys);
    if g.UniqueIds() && RoundState(g, levels, rank, indegree0) {
      NextRound(g, levels, rank, level, indegree0, indegree);
    }
  }

  /**
   Nodes with no unfinished predecessor form the next level, in the order the graph lists them. Fails when
   nobody is free although somebody is left.
   */
  method Levels(g: Graph) returns (r: Result<seq<seq<Node>>, LevelError>)
    ensures g.UniqueIds() ==>
      match r
      case Ok(levels) => exists rank :: IsRanking(g, levels, rank)
      case Err(_) => Blocked(g)
  {
    hide IsRanking, RoundState, Blocked, Zeros, CountUndone, Marked, Outs, Tos;
    var indegree, next := CountIndegrees(g);
    var remaining := |g.nodes|;
    var levels: seq<seq<Node>> := [];
    ghost var rank: map<string, nat> := map[];
    CountUndoneZero(g.nodes, {});
    InitialRound(g, indegree);
    assert rank.Keys == {};

    while remaining > 0
      invariant g.Ids() <= indegree.Keys && Marked(g, indegree, rank.Keys)
      invariant remaining == CountUndone(g.nodes, rank.Keys)
      invariant g.UniqueIds() ==> RoundState(g, levels, rank, indegree)
      decreases remaining
    {
      var level := PickLevel(g, indegree);
      if level == [] {
        if g.UniqueIds() {
          StuckIsBlocked(g, levels, rank, indegree);
        }
        return Err(GraphHasCycle);
      }
      indegree, remaining := FinishRound(g, next, level, indegree, remaining, levels, rank);
      rank := Extended(rank, IdsOf(level), |levels|);
      levels := levels + [level];
    }
    if g.UniqueIds() {
      AllPlaced(g, levels, rank, indegree);
    }
    r := Ok(levels);
  }

  lemma AllPlaced(g: Graph, levels: seq<seq<Node>>, rank: map<string, nat>, indegree: map<string, int>)
    requires Marked(g, indegree, rank.Keys) && RoundState(g, levels, rank, indegree)
    requires CountUndone(g.nodes, rank.Keys) == 0
    ensures IsRanking(g, levels, rank)
  {
    CountUndoneZero(g.nodes, rank.Keys);
    assert rank.Keys == g.Ids();
  }

  lemma InitialRound(g: Graph, indegree: map<string, int>)
    requires indegree.Keys == g.Ids() + Tos(g.edges)
    requires forall v | v in indegree :: indegree[v] == InCount(g.edges, v, {})
    ensures Marked(g, indegree, {}) && RoundState(g, [], map[], indegree)
  {
    var rank: map<string, nat> := map[];
    assert rank.Keys == {};
  }

  // ----- what the levels mean

  /** Both answers cannot be right: a levelled graph blocks nobody. So levelling fails exactly when blocked. */
  lemma RankedIsNotBlocked(g: Graph, levels: seq<seq<Node>>, rank: map<string, nat>)
    requires IsRanking(g, levels, rank)
    ensures !Blocked(g)
  {
    if p :| IsCycleWithin(g.edges, g.Ids(), p) {
      RankGrowsAlong(g, levels, rank, p);
    }
  }

  lemma {:induction false} RankGrowsAlong(g: Graph, levels: seq<seq<Node>>, rank: map<string, nat>, p: seq<string>)
    requires IsRanking(g, levels, rank) && IsPath(g.edges, p) && p[|p| - 1] in g.Ids()
    ensures p[0] in rank && rank[p[|p| - 1]] >= rank[p[0]] + |p| - 1
  {
    if |p| > 1 {
      var e := Edge(p[|p| - 2], p[|p| - 2 + 1]);
      assert e in g.edges && e.to in rank;
      RankGrowsAlong(g, levels, rank, p[..|p| - 1]);
    }
  }

  /** With known endpoints, being blocked is having a cycle. */
  lemma BlockedIsCycle(g: Graph)
    requires g.KnownEndpoints()
    ensures Blocked(g) <==> HasCycle(g.edges)
  {
    if Blocked(g) {
      var p :| IsCycleWithin(g.edges, g.Ids(), p);
      assert PathFrom(g.edges, p[0], p[0], p);
      assert Before(g.edges, p[0], p[0]);
    }
    if HasCycle(g.edges) {
      var u :| Before(g.edges, u, u);
      var p :| PathFrom(g.edges, u, u, p) && |p| >= 2;
      forall i | 0 <= i < |p| ensures p[i] in g.Ids() {
        if i < |p| - 1 {
          assert Edge(p[i], p[i + 1]) in g.edges;
        } else {
          assert Edge(p[i - 1], p[i - 1 + 1]) in g.edges;
        }
      }
      assert IsCycleWithin(g.edges, g.Ids(), p);
    }
  }

  /** A node's level is the length of the longest path into it: one such path exists, none is longer. */
  lemma LevelIsLongestPath(g: Graph, levels: seq<seq<Node>>, rank: map<string, nat>, id: string)
    requires IsRanking(g, levels, rank) && id in g.Ids()
    ensures exists p, u :: PathFrom(g.edges, u, id, p) && |p| == rank[id] + 1
    ensures forall p, u | PathFrom(g.edges, u, id, p) :: |p| <= rank[id] + 1
  {
    var p := DeepestPath(g, levels, rank, id);
    assert PathFrom(g.edges, p[0], id, p);
    forall p, u | PathFrom(g.edges, u, id, p) ensures |p| <= rank[id] + 1 {
      RankGrowsAlong(g, levels, rank, p);
    }
  }

  lemma {:induction false} DeepestPath(g: Graph, levels: seq<seq<Node>>, rank: map<string, nat>, id: string)
    returns (p: seq<string>)
    requires IsRanking(g, levels, rank) && id in g.Ids()
    ensures IsPath(g.edges, p) && p[|p| - 1] == id && |p| == rank[id] + 1
    decreases rank[id]
  {
    if rank[id] == 0 {
      p := [id];
    } else {
      var u :| Edge(u, id) in g.edges && u in rank && rank[u] == rank[id] - 1;
      var q := DeepestPath(g, levels, rank, u);
      p := q + [id];
    }
  }

  lemma {:induction false} AtRankMembers(nodes: seq<Node>, rank: map<string, nat>, k: nat)
    ensures forall n :: n in AtRank(nodes, rank, k) <==> n in nodes && n.id in rank && rank[n.id] == k
  {
    if nodes != [] {
      AtRankMembers(nodes[1..], rank, k);
      assert forall n :: n in nodes <==> n == nodes[0] || n in nodes[1..];
    }
  }

  /** The levels partition the nodes: every node stands in one level and in no other. */
  lemma LevelsPartitionNodes(g: Graph, levels: seq<seq<Node>>, rank: map<string, nat>)
    requires IsRanking(g, levels, rank)
    ensures forall k, n | 0 <= k < |levels| :: n in levels[k] <==> n in g.nodes && rank[n.id] == k
    ensures forall n | n in g.nodes :: n.id in rank && rank[n.id] < |levels| && n in levels[rank[n.id]]
  {
    forall k | 0 <= k < |levels|
      ensures forall n :: n in levels[k] <==> n in g.nodes && n.id in rank && rank[n.id] == k
    {
      AtRankMembers(g.nodes, rank, k);
    }
    assert forall n | n in g.nodes :: n.id in g.Ids();
  }
}
