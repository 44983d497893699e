/** The level computations of the execution-ordering step of
    `InfaLineageGenerator`: longest-path levels along a topological order,
    the single-pass cycle breaker used when there is none, and the
    breadth-first levelling used as a fallback (and, in the older exporter,
    as the only method). */
module Levels {
  import opened Wrappers
  import opened Digraph

  /** `levels.get(k, 0)`. */
  function Get0(m: map<string, nat>, k: string): (r: nat) {
    if k in m then m[k] else 0
  }

  /** `max(levels.get(p, 0) for p in ps)`. */
  function MaxLevel(m: map<string, nat>, ps: seq<string>): (r: nat)
    requires |ps| > 0
    ensures forall p | p in ps :: Get0(m, p) <= r
    ensures exists p | p in ps :: Get0(m, p) == r
  {
    if |ps| == 1 then Get0(m, ps[0])
    else
      var pre := ps[..|ps| - 1];
      var r0 := MaxLevel(m, pre);
      var last := Get0(m, ps[|ps| - 1]);
      assert ps == pre + [ps[|ps| - 1]];
      if last > r0 then last else r0
  }

  /** The level given to `n` when the walk reaches it, `m` holding the
      levels given so far: 0 for a source, otherwise one more than the
      largest level among its predecessors (0 for one not levelled yet), and
      0 for a node with no predecessor. */
  function LevelOf(sub: Graph, sources: seq<string>, m: map<string, nat>, n: string): (r: nat) {
    if n in sources then 0
    else if |Preds(sub, n)| == 0 then 0
    else MaxLevel(m, Preds(sub, n)) + 1
  }

  /** The levels after walking `order`; a node's level is set when it is
      reached. */
  function LevelsAlong(sub: Graph, sources: seq<string>, order: seq<string>): (m: map<string, nat>)
    ensures forall n :: n in m <==> n in order
  {
    if |order| == 0 then map[]
    else
      var pre := order[..|order| - 1];
      var n := order[|order| - 1];
      var m := LevelsAlong(sub, sources, pre);
      assert order == pre + [n];
      m[n := LevelOf(sub, sources, m, n)]
  }

  /** The loop of `_calculate_longest_path_levels` over a given order. */
  method LevelsLoop(sub: Graph, sources: seq<string>, order: seq<string>) returns (levels: map<string, nat>)
    ensures levels == LevelsAlong(sub, sources, order)
  {
    levels := map[];
    for i := 0 to |order|
      invariant levels == LevelsAlong(sub, sources, order[..i])
    {
      assert order[..i + 1][..i] == order[..i];
      var node := order[i];
      if node in sources {
        levels := levels[node := 0];
      } else {
        var preds := Preds(sub, node);
        if |preds| > 0 {
          levels := levels[node := MaxLevel(levels, preds) + 1];
        } else {
          levels := levels[node := 0];
        }
      }
    }
    assert order[..|order|] == order;
  }

  /** One step of the walk. */
  lemma LevelsAlongStep(sub: Graph, sources: seq<string>, order: seq<string>, j: nat)
    requires 0 < j <= |order|
    ensures var m := LevelsAlong(sub, sources, order[..j - 1]);
      LevelsAlong(sub, sources, order[..j]) == m[order[j - 1] := LevelOf(sub, sources, m, order[j - 1])]
  {
    assert order[..j][..j - 1] == order[..j - 1];
  }

  /** Once a node of a list without repeats has been levelled, later steps
      of the walk do not change its level. */
  lemma {:induction false} LevelsAlongStable(sub: Graph, sources: seq<string>, order: seq<string>, i: nat, j: nat)
    requires Distinct(order) && i < j <= |order|
    ensures order[i] in LevelsAlong(sub, sources, order[..j])
    ensures LevelsAlong(sub, sources, order[..j])[order[i]]
            == LevelOf(sub, sources, LevelsAlong(sub, sources, order[..i]), order[i])
    decreases j
  {
    LevelsAlongStep(sub, sources, order, j);
    if j > i + 1 {
      LevelsAlongStable(sub, sources, order, i, j - 1);
      assert order[j - 1] != order[i];
    }
  }

  /** The level of every node of a walk without repeats, in terms of the
      levels of the nodes before it. */
  lemma LevelsAlongAt(sub: Graph, sources: seq<string>, order: seq<string>, i: nat)
    requires Distinct(order) && i < |order|
    ensures LevelsAlong(sub, sources, order)[order[i]]
            == LevelOf(sub, sources, LevelsAlong(sub, sources, order[..i]), order[i])
  {
    LevelsAlongStable(sub, sources, order, i, |order|);
    assert order[..|order|] == order;
  }

  /** A source gets level 0; a node with no predecessor gets level 0. */
  lemma LevelsOfSources(sub: Graph, sources: seq<string>, order: seq<string>, n: string)
    requires Distinct(order) && n in order && (n in sources || |Preds(sub, n)| == 0)
    ensures LevelsAlong(sub, sources, order)[n] == 0
  {
    var i := IndexOf(order, n);
    LevelsAlongAt(sub, sources, order, i);
  }

  /** Along a topological order, with the nodes of in-degree 0 as the
      sources, every edge climbs at least one level. */
  lemma LevelsMonotone(sub: Graph, sources: seq<string>, order: seq<string>, e: Edge)
    requires Valid(sub) && IsTopoOrder(sub, order)
    requires forall v | v in sub.nodes :: v in sources <==> InDegree(sub, v) == 0
    requires e in sub.edges
    ensures LevelsAlong(sub, sources, order)[e.dst] >= LevelsAlong(sub, sources, order)[e.src] + 1
  {
    var lv := LevelsAlong(sub, sources, order);
    var i := IndexOf(order, e.src);
    var k := IndexOf(order, e.dst);
    assert i < k;
    assert e.src in Preds(sub, e.dst);
    assert e.dst !in sources;
    var before := LevelsAlong(sub, sources, order[..k]);
    LevelsAlongAt(sub, sources, order, k);
    LevelsAlongStable(sub, sources, order, i, k);
    LevelsAlongAt(sub, sources, order, i);
    assert Get0(before, e.src) == lv[e.src];
  }

  /** Along a topological order, a node that is not a source and has a
      predecessor sits one level above its highest predecessor. */
  lemma LevelsLongestPath(sub: Graph, sources: seq<string>, order: seq<string>, v: string)
    requires Valid(sub) && IsTopoOrder(sub, order)
    requires v in sub.nodes && v !in sources && |Preds(sub, v)| > 0
    ensures var lv := LevelsAlong(sub, sources, order);
      (forall u | u in Preds(sub, v) :: u in lv && lv[v] >= lv[u] + 1)
      && exists u | u in Preds(sub, v) :: u in lv && lv[v] == lv[u] + 1
  {
    var lv := LevelsAlong(sub, sources, order);
    var k := IndexOf(order, v);
    var before := LevelsAlong(sub, sources, order[..k]);
    LevelsAlongAt(sub, sources, order, k);
    forall u | u in Preds(sub, v) ensures u in lv && Get0(before, u) == lv[u] {
      assert Edge(u, v) in sub.edges;
      var i := IndexOf(order, u);
      LevelsAlongStable(sub, sources, order, i, k);
      LevelsAlongAt(sub, sources, order, i);
    }
  }

  // ---------------------------------------------------------------- cycle breaking

  /** The first index of a largest value. */
  function FirstMax(ds: seq<nat>): (i: nat)
    requires |ds| > 0
    ensures i < |ds|
    ensures forall j | 0 <= j < |ds| :: ds[j] <= ds[i]
    ensures forall j | 0 <= j < i :: ds[j] < ds[i]
  {
    if |ds| == 1 then 0
    else
      var pre := ds[..|ds| - 1];
      var i := FirstMax(pre);
      assert forall j | 0 <= j < |pre| :: pre[j] == ds[j];
      if ds[|ds| - 1] > ds[i] then |ds| - 1 else i
  }

  /** The first index of a smallest value. */
  function FirstMin(ds: seq<nat>): (i: nat)
    requires |ds| > 0
    ensures i < |ds|
    ensures forall j | 0 <= j < |ds| :: ds[i] <= ds[j]
    ensures forall j | 0 <= j < i :: ds[i] < ds[j]
  {
    if |ds| == 1 then 0
    else
      var pre := ds[..|ds| - 1];
      var i := FirstMin(pre);
      assert forall j | 0 <= j < |pre| :: pre[j] == ds[j];
      if ds[|ds| - 1] < ds[i] then |ds| - 1 else i
  }

  /** `max(ns, key=out_degree)`: the first node of largest out-degree. */
  function FirstMaxOut(h: Graph, ns: seq<string>): (i: nat)
    requires |ns| > 0
    ensures i < |ns|
    ensures forall j | 0 <= j < |ns| :: OutDegree(h, ns[j]) <= OutDegree(h, ns[i])
    ensures forall j | 0 <= j < i :: OutDegree(h, ns[j]) < OutDegree(h, ns[i])
  {
    var ds := seq(|ns|, j requires 0 <= j < |ns| => OutDegree(h, ns[j]));
    var i := FirstMax(ds);
    assert forall j | 0 <= j < |ns| :: ds[j] == OutDegree(h, ns[j]);
    i
  }

  /** `min(ns, key=in_degree)`: the first node of smallest in-degree. */
  function FirstMinIn(h: Graph, ns: seq<string>): (i: nat)
    requires |ns| > 0
    ensures i < |ns|
    ensures forall j | 0 <= j < |ns| :: InDegree(h, ns[i]) <= InDegree(h, ns[j])
    ensures forall j | 0 <= j < i :: InDegree(h, ns[i]) < InDegree(h, ns[j])
  {
    var ds := seq(|ns|, j requires 0 <= j < |ns| => InDegree(h, ns[j]));
    var i := FirstMin(ds);
    assert forall j | 0 <= j < |ns| :: ds[j] == InDegree(h, ns[j]);
    i
  }

  /** The nodes of a strongly connected component, in the graph's order. */
  function Members(t: Graph, scc: set<string>): (r: seq<string>) {
    FilterNodes(t.nodes, scc)
  }

  /** The edge `_handle_cyclic_graph` removes for one component, if any:
      from its first node of largest out-degree to its first node of
      smallest in-degree, degrees taken inside the component. */
  function CycleEdge(t: Graph, scc: set<string>): (r: Option<Edge>)
    ensures r.Some? ==> r.value in t.edges && r.value.src in scc && r.value.dst in scc
  {
    var ns := Members(t, scc);
    if |scc| <= 1 || |ns| == 0 then None
    else
      var s := Subgraph(t, scc);
      var a := ns[FirstMaxOut(s, ns)];
      var b := ns[FirstMinIn(s, ns)];
      if HasEdge(t, a, b) then Some(Edge(a, b)) else None
  }

  function BreakOne(t: Graph, scc: set<string>): (r: Graph) {
    match CycleEdge(t, scc)
    case None => t
    case Some(e) => RemoveEdge(t, e.src, e.dst)
  }

  /** The graph after the removal pass over the components `sccs`. */
  function BreakCycles(h: Graph, sccs: seq<set<string>>): (t: Graph)
    ensures Valid(h) ==> Valid(t)
    ensures t.nodes == h.nodes
    ensures forall e | e in t.edges :: e in h.edges
  {
    if |sccs| == 0 then h
    else BreakOne(BreakCycles(h, sccs[..|sccs| - 1]), sccs[|sccs| - 1])
  }

  /** The intended result of `_handle_cyclic_graph`: a topological order of
      the graph once the pass has removed its edges, or else the graph's
      own node order. */
  function HandleCyclic(sub: Graph): (r: seq<string>)
    requires Valid(sub)
  {
    match TopoSort(BreakCycles(sub, Sccs(sub)))
    case Some(o) => o
    case None => sub.nodes
  }

  lemma BreakCyclesStep(h: Graph, sccs: seq<set<string>>, i: nat)
    requires i < |sccs|
    ensures BreakCycles(h, sccs[..i + 1]) == BreakOne(BreakCycles(h, sccs[..i]), sccs[i])
  {
    assert sccs[..i + 1][..i] == sccs[..i];
  }

  /** The removal pass loop of `_handle_cyclic_graph`. */
  method HandleCyclicGraph(sub: Graph) returns (order: seq<string>)
    requires Valid(sub)
    ensures order == HandleCyclic(sub)
  {
    var temp := sub;
    var sccs := Sccs(sub);
    for i := 0 to |sccs|
      invariant temp == BreakCycles(sub, sccs[..i])
    {
      BreakCyclesStep(sub, sccs, i);
      var scc := sccs[i];
      var ns := Members(temp, scc);
      if |scc| > 1 && |ns| > 0 {
        var s := Subgraph(temp, scc);
        var maxOut := ns[FirstMaxOut(s, ns)];
        var minIn := ns[FirstMinIn(s, ns)];
        if HasEdge(temp, maxOut, minIn) {
          temp := RemoveEdge(temp, maxOut, minIn);
        }
      }
    }
    assert sccs[..|sccs|] == sccs;
    var sorted := TopoSort(temp);
    if sorted.Some? {
      order := sorted.value;
    } else {
      order := sub.nodes;
    }
  }

  /** The cycle breaker always returns every node of the graph exactly once. */
  lemma HandleCyclicPermutes(sub: Graph)
    requires Valid(sub)
    ensures Distinct(HandleCyclic(sub))
    ensures forall n :: n in HandleCyclic(sub) <==> n in sub.nodes
  {
    var t := BreakCycles(sub, Sccs(sub));
    TopoSortCorrect(t);
  }

  /** Count of the components with more than one node. */
  function CountLarge(sccs: seq<set<string>>): (r: nat) {
    if |sccs| == 0 then 0
    else CountLarge(sccs[..|sccs| - 1]) + (if |sccs[|sccs| - 1]| > 1 then 1 else 0)
  }

  /** The pass removes at most one edge per component with more than one
      node, and each edge it removes joins two nodes of one component. */
  lemma {:induction false} BreakCyclesRemoves(h: Graph, sccs: seq<set<string>>)
    requires Valid(h)
    ensures |BreakCycles(h, sccs).edges| + CountLarge(sccs) >= |h.edges|
    ensures forall e | e in h.edges && e !in BreakCycles(h, sccs).edges ::
              exists i | 0 <= i < |sccs| :: e.src in sccs[i] && e.dst in sccs[i]
  {
    if |sccs| > 0 {
      var pre := sccs[..|sccs| - 1];
      var scc := sccs[|sccs| - 1];
      BreakCyclesRemoves(h, pre);
      var t := BreakCycles(h, pre);
      match CycleEdge(t, scc)
      case None =>
      case Some(e) =>
        RemoveOneEdge(t, e);
    }
  }

  lemma RemoveOneEdge(t: Graph, e: Edge)
    requires Valid(t) && e in t.edges
    ensures |RemoveEdge(t, e.src, e.dst).edges| + 1 == |t.edges|
  {
    RemoveFromDistinct(t.edges, e);
  }

  lemma {:induction false} RemoveFromDistinct(es: seq<Edge>, e: Edge)
    requires Distinct(es) && e in es
    ensures |RemoveFrom(es, e)| + 1 == |es|
  {
    var pre := es[..|es| - 1];
    if es[|es| - 1] != e {
      assert e in pre;
      RemoveFromDistinct(pre, e);
    } else {
      assert e !in pre;
      RemoveFromAbsent(pre, e);
    }
  }

  lemma {:induction false} RemoveFromAbsent(es: seq<Edge>, e: Edge)
    requires e !in es
    ensures RemoveFrom(es, e) == es
  {
    if |es| > 0 {
      var pre := es[..|es| - 1];
      RemoveFromAbsent(pre, e);
      assert es == pre + [es[|es| - 1]];
    }
  }

  // ---------------------------------------------------------------- breadth-first levels

  /** The inner loop of the breadth-first levelling, for one dequeued node
      at level `cl` and its successors `succs`: a successor seen for the
      first time gets level `cl + 1` and is queued; one seen before keeps the
      larger of its level and `cl + 1`. */
  function Visit(succs: seq<string>, cl: nat, levels: map<string, nat>, queue: seq<string>)
    : (r: (map<string, nat>, seq<string>))
    ensures forall n :: n in r.0 <==> n in levels || n in succs
    ensures forall n | n in r.1 :: n in queue || n in succs
    ensures forall n | n in queue :: n in r.1
    ensures forall n | n in r.0 && n !in levels :: n in r.1
    ensures (forall n | n in succs :: n in levels) ==> r.1 == queue
    ensures forall n | n in r.0 :: r.0[n] >= 1 || (n in levels && r.0[n] == levels[n])
  {
    if |succs| == 0 then (levels, queue)
    else
      var pre := succs[..|succs| - 1];
      var s := succs[|succs| - 1];
      assert succs == pre + [s];
      var (lv, q) := Visit(pre, cl, levels, queue);
      if s !in lv then (lv[s := cl + 1], q + [s])
      else (lv[s := if lv[s] > cl + 1 then lv[s] else cl + 1], q)
  }

  lemma FewerUnvisited(g: Graph, a: set<string>, b: set<string>)
    requires a < b <= NodeSet(g)
    ensures |NodeSet(g) - b| < |NodeSet(g) - a|
  {
    assert NodeSet(g) - b < NodeSet(g) - a;
    StrictSubsetCard(NodeSet(g) - b, NodeSet(g) - a);
  }

  lemma SuccsAreNodes(g: Graph, u: string)
    requires Valid(g)
    ensures forall n | n in Succs(g, u) :: n in NodeSet(g)
  {
    forall n | n in Succs(g, u) ensures n in NodeSet(g) {
      assert Edge(u, n) in g.edges;
    }
  }

  /** The `while queue` loop from a given state. */
  function BfsRun(g: Graph, levels: map<string, nat>, queue: seq<string>): (r: map<string, nat>)
    requires Valid(g) && levels.Keys <= NodeSet(g) && forall n | n in queue :: n in levels
    decreases |NodeSet(g) - levels.Keys|, |queue|
  {
    if |queue| == 0 then levels
    else
      var current := queue[0];
      var succs := Succs(g, current);
      var r := Visit(succs, levels[current], levels, queue[1..]);
      SuccsAreNodes(g, current);
      assert r.0.Keys <= NodeSet(g);
      if forall n | n in succs :: n in levels then
        assert r.0.Keys == levels.Keys;
        BfsRun(g, r.0, r.1)
      else
        var n :| n in succs && n !in levels;
        assert n in r.0.Keys;
        FewerUnvisited(g, levels.Keys, r.0.Keys);
        BfsRun(g, r.0, r.1)
  }

  /** The breadth-first levelling of the fallback: every source starts at 0
      and is queued; each dequeued node levels its successors as `Visit`
      says. */
  function Bfs(g: Graph, sources: seq<string>): (r: map<string, nat>)
    requires Valid(g) && forall s | s in sources :: s in g.nodes
  {
    BfsRun(g, map s | s in sources :: 0, sources)
  }

  lemma SuccsWithin(g: Graph, c: set<string>, u: string)
    requires Valid(g) && u in c && Post(g, c) <= c
    ensures forall n | n in Succs(g, u) :: n in c
  {
    forall n | n in Succs(g, u) ensures n in c {
      assert Edge(u, n) in g.edges;
      assert n in Post(g, c);
    }
  }

  lemma SuccsCovered(g: Graph, u: string, c: set<string>)
    requires forall n | n in Succs(g, u) :: n in c
    ensures forall e | e in g.edges && e.src == u :: e.dst in c
  {
    forall e | e in g.edges && e.src == u ensures e.dst in c {
      assert e.dst in Succs(g, u);
    }
  }

  /** The invariant of the `while queue` loop: everything levelled is
      reachable, every levelled node is either finished or queued, and the
      successors of the finished nodes are levelled. */
  ghost predicate BfsInvariant(g: Graph, start: set<string>, sources: seq<string>, done: set<string>,
                               levels: map<string, nat>, queue: seq<string>)
    requires Valid(g) && start <= NodeSet(g)
  {
    start <= levels.Keys <= ReachFrom(g, start)
    && (forall n | n in queue :: n in levels)
    && (forall n | n in levels :: n in done || n in queue)
    && done <= levels.Keys
    && (forall e | e in g.edges && e.src in done :: e.dst in levels)
    && (forall n | n in levels && n !in sources :: levels[n] >= 1)
  }

  /** One turn of the `while queue` loop keeps the invariant, with the
      dequeued node finished. */
  lemma BfsInvariantStep(g: Graph, start: set<string>, sources: seq<string>, done: set<string>,
                         levels: map<string, nat>, queue: seq<string>)
    requires Valid(g) && start <= NodeSet(g) && |queue| > 0
    requires BfsInvariant(g, start, sources, done, levels, queue)
    ensures var r := Visit(Succs(g, queue[0]), levels[queue[0]], levels, queue[1..]);
      BfsInvariant(g, start, sources, done + {queue[0]}, r.0, r.1)
  {
    var current := queue[0];
    var r := Visit(Succs(g, current), levels[current], levels, queue[1..]);
    SuccsWithin(g, ReachFrom(g, start), current);
    SuccsCovered(g, current, r.0.Keys);
  }

  /** One turn of the `while queue` loop: the state stays within the graph,
      and either a new node is levelled or the queue gets shorter. */
  lemma BfsRunProgress(g: Graph, levels: map<string, nat>, queue: seq<string>)
    requires Valid(g) && levels.Keys <= NodeSet(g) && |queue| > 0 && forall n | n in queue :: n in levels
    ensures var r := Visit(Succs(g, queue[0]), levels[queue[0]], levels, queue[1..]);
      r.0.Keys <= NodeSet(g) && (forall n | n in r.1 :: n in r.0)
      && BfsRun(g, r.0, r.1) == BfsRun(g, levels, queue)
      && (|NodeSet(g) - r.0.Keys| < |NodeSet(g) - levels.Keys|
          || (r.0.Keys == levels.Keys && |r.1| < |queue|))
  {
    var current := queue[0];
    var r := Visit(Succs(g, current), levels[current], levels, queue[1..]);
    SuccsAreNodes(g, current);
    GrowKeys(NodeSet(g), levels.Keys, r.0.Keys, Succs(g, current));
    if r.0.Keys == levels.Keys {
      assert forall n | n in Succs(g, current) :: n in levels;
    }
  }

  /** Adding the successors, all nodes, to the levelled set keeps it inside
      the graph, and either adds a node to it or leaves it as it was. */
  lemma GrowKeys(all: set<string>, before: set<string>, after: set<string>, succs: seq<string>)
    requires before <= all && forall n | n in succs :: n in all
    requires forall n :: n in after <==> n in before || n in succs
    ensures after <= all
    ensures |all - after| < |all - before| || after == before
  {
    if exists n | n in succs :: n !in before {
      var n :| n in succs && n !in before;
      assert all - after < all - before;
      StrictSubsetCard(all - after, all - before);
    } else {
      assert after == before;
    }
  }

  lemma {:induction false} BfsRunFacts(g: Graph, start: set<string>, sources: seq<string>, done: set<string>,
                                       levels: map<string, nat>, queue: seq<string>)
    requires Valid(g) && start <= NodeSet(g)
    requires BfsInvariant(g, start, sources, done, levels, queue)
    ensures var r := BfsRun(g, levels, queue);
      r.Keys == ReachFrom(g, start) && start <= r.Keys
      && forall n | n in r && n !in sources :: r[n] >= 1
    decreases |NodeSet(g) - levels.Keys|, |queue|
  {
    if |queue| == 0 {
      ReachLeast(g, start, levels.Keys);
    } else {
      var r := Visit(Succs(g, queue[0]), levels[queue[0]], levels, queue[1..]);
      BfsInvariantStep(g, start, sources, done, levels, queue);
      BfsRunProgress(g, levels, queue);
      BfsRunFacts(g, start, sources, done + {queue[0]}, r.0, r.1);
    }
  }

  /** The nodes the breadth-first levelling reaches are exactly those
      reachable from the sources; sources are among them and every other
      one has a level of at least 1. */
  lemma BfsReach(g: Graph, sources: seq<string>)
    requires Valid(g) && forall s | s in sources :: s in g.nodes
    ensures Bfs(g, sources).Keys == ReachFrom(g, set s | s in sources)
    ensures forall s | s in sources :: s in Bfs(g, sources)
    ensures forall n | n in Bfs(g, sources) && n !in sources :: Bfs(g, sources)[n] >= 1
  {
    var start := set s | s in sources;
    BfsRunFacts(g, start, sources, {}, map s | s in sources :: 0, sources);
  }

  /** What one dequeued node at level `cl` does to the level of `n`: a
      successor met for the first time gets `cl + 1`, one met before keeps
      the larger of its level and `cl + 1`, and any other node keeps its
      level. */
  lemma {:induction false} VisitLevels(succs: seq<string>, cl: nat, levels: map<string, nat>, queue: seq<string>, n: string)
    ensures var r := Visit(succs, cl, levels, queue);
      (n in succs && n !in levels ==> r.0[n] == cl + 1)
      && (n in succs && n in levels ==> r.0[n] == if levels[n] > cl + 1 then levels[n] else cl + 1)
      && (n !in succs && n in levels ==> r.0[n] == levels[n])
  {
    if |succs| > 0 {
      var pre := succs[..|succs| - 1];
      assert succs == pre + [succs[|succs| - 1]];
      VisitLevels(pre, cl, levels, queue, n);
    }
  }

  /** A successor has a predecessor. */
  lemma SuccHasPred(g: Graph, u: string, n: string)
    ensures n in Succs(g, u) ==> InDegree(g, n) > 0
  {
    if n in Succs(g, u) {
      assert u in Preds(g, n);
    }
  }

  /** A levelled node nothing points to stays at level 0 through the rest of
      the `while queue` loop. */
  lemma {:induction false} BfsRunKeepsZero(g: Graph, levels: map<string, nat>, queue: seq<string>)
    requires Valid(g) && levels.Keys <= NodeSet(g) && forall n | n in queue :: n in levels
    requires forall n | n in levels && InDegree(g, n) == 0 :: levels[n] == 0
    ensures forall n | n in BfsRun(g, levels, queue) && InDegree(g, n) == 0 :: BfsRun(g, levels, queue)[n] == 0
    decreases |NodeSet(g) - levels.Keys|, |queue|
  {
    if |queue| > 0 {
      var current := queue[0];
      var r := Visit(Succs(g, current), levels[current], levels, queue[1..]);
      BfsRunProgress(g, levels, queue);
      forall n | n in r.0 && InDegree(g, n) == 0
        ensures r.0[n] == 0
      {
        SuccHasPred(g, current, n);
        VisitLevels(Succs(g, current), levels[current], levels, queue[1..], n);
      }
      BfsRunKeepsZero(g, r.0, r.1);
    }
  }

  /** Every source starts at level 0, and a source nothing points to ends
      there too. */
  lemma BfsSourcesAtZero(g: Graph, sources: seq<string>, s: string)
    requires Valid(g) && (forall x | x in sources :: x in g.nodes) && s in sources && InDegree(g, s) == 0
    ensures s in Bfs(g, sources) && Bfs(g, sources)[s] == 0
  {
    BfsReach(g, sources);
    BfsRunKeepsZero(g, map x | x in sources :: 0, sources);
  }

  /** The inner loop of `_calculate_complex_order`'s fallback. */
  method VisitSuccessors(succs: seq<string>, cl: nat, levels: map<string, nat>, queue: seq<string>)
    returns (levels': map<string, nat>, queue': seq<string>)
    ensures (levels', queue') == Visit(succs, cl, levels, queue)
  {
    levels' := levels;
    queue' := queue;
    for j := 0 to |succs|
      invariant (levels', queue') == Visit(succs[..j], cl, levels, queue)
    {
      assert succs[..j + 1][..j] == succs[..j];
      var succ := succs[j];
      if succ !in levels' {
        levels' := levels'[succ := cl + 1];
        queue' := queue' + [succ];
      } else {
        levels' := levels'[succ := if levels'[succ] > cl + 1 then levels'[succ] else cl + 1];
      }
    }
    assert succs[..|succs|] == succs;
  }

  /** The `while queue` loop of the fallback, with `visited` the set of
      levelled nodes. */
  method BfsLevels(g: Graph, sources: seq<string>) returns (levels: map<string, nat>)
    requires Valid(g) && forall s | s in sources :: s in g.nodes
    ensures levels == Bfs(g, sources)
    ensures levels.Keys == ReachFrom(g, set s | s in sources)
    ensures forall n | n in levels && n !in sources :: levels[n] >= 1
  {
    levels := map s | s in sources :: 0;
    var queue := sources;
    var visited := set s | s in sources;
    while |queue| > 0
      invariant levels.Keys <= NodeSet(g) && forall n | n in queue :: n in levels
      invariant visited == levels.Keys
      invariant BfsRun(g, levels, queue) == Bfs(g, sources)
      decreases |NodeSet(g) - levels.Keys|, |queue|
    {
      var current := queue[0];
      BfsRunProgress(g, levels, queue);
      levels, queue := VisitSuccessors(Succs(g, current), levels[current], levels, queue[1..]);
      visited := levels.Keys;
    }
    BfsReach(g, sources);
  }
}
