/** The execution ordering of `InfaLineageGenerator`: node names built from
    type acronyms, the in-degree sources of a component, longest-path
    levels, the per-component orders and parallel-group labels, and the
    mapping-wide assignment over the weakly connected components. */
module Ordering {
  import opened Wrappers
  import opened Text
  import opened Digraph
  import opened Levels
  import opened ParallelGroups

  // ---------------------------------------------------------------- node names

  /** The transformation types that have an acronym. */
  const KnownTypes: seq<string> := [
    "Filter", "Target Definition", "Source Definition", "App Multi-Group Source Qualifier",
    "Source Qualifier", "XML Source Qualifier", "Custom Transformation", "Aggregator",
    "Update Strategy", "Expression", "Lookup Procedure", "Sequence"]

  /** `create_transform_type_acronym`. */
  function Acronym(t: string): (r: string)
    ensures t !in KnownTypes ==> r == t
    ensures t in KnownTypes ==> r != t && |r| > 0 && r[|r| - 1] == '_'
  {
    if t == "Filter" then "FILT_"
    else if t == "Target Definition" then "TGT_"
    else if t == "Source Definition" then "SRC_"
    else if t == "App Multi-Group Source Qualifier" then "SRCQ_"
    else if t == "Source Qualifier" then "SRCQ_"
    else if t == "XML Source Qualifier" then "XSRCQ_"
    else if t == "Custom Transformation" then "CTR_"
    else if t == "Aggregator" then "AGGR_"
    else if t == "Update Strategy" then "UPD_"
    else if t == "Expression" then "EXPR_"
    else if t == "Lookup Procedure" then "LOOK_"
    else if t == "Sequence" then "SEQ_"
    else t
  }

  /** The graph node of an instance: its type's acronym followed by its name. */
  function NodeName(t: string, name: string): (r: string)
    ensures t !in KnownTypes ==> r == t + name
    ensures t in KnownTypes ==> |r| > |name| && r[|r| - |name|..] == name
  {
    Acronym(t) + name
  }

  // ---------------------------------------------------------------- sources

  /** The nodes of `ns` whose in-degree is `d`, in order. */
  function OfInDegree(g: Graph, ns: seq<string>, d: nat): (r: seq<string>)
    ensures forall n :: n in r <==> n in ns && InDegree(g, n) == d
    ensures (forall n | n in ns :: InDegree(g, n) != d) ==> r == []
  {
    if |ns| == 0 then []
    else
      var pre := ns[..|ns| - 1];
      var n := ns[|ns| - 1];
      assert ns == pre + [n];
      if InDegree(g, n) == d then OfInDegree(g, pre, d) + [n] else OfInDegree(g, pre, d)
  }

  /** `min(subgraph.in_degree(n) for n in subgraph.nodes())`. */
  function MinInDegree(g: Graph, ns: seq<string>): (m: nat)
    requires |ns| > 0
    ensures forall n | n in ns :: m <= InDegree(g, n)
    ensures exists n | n in ns :: InDegree(g, n) == m
  {
    var i := FirstMinIn(g, ns);
    assert ns[i] in ns;
    InDegree(g, ns[i])
  }

  /** The sources of `_calculate_complex_order`: the nodes with no incoming
      edge, or, when there are none, the nodes of smallest in-degree. */
  function Sources(g: Graph): (r: seq<string>) {
    var z := OfInDegree(g, g.nodes, 0);
    if |z| > 0 || |g.nodes| == 0 then z
    else OfInDegree(g, g.nodes, MinInDegree(g, g.nodes))
  }

  /** With a node of in-degree 0 the sources are exactly those nodes;
      without one they are exactly the nodes of smallest in-degree, so a
      nonempty component always has a source. */
  lemma SourcesSpec(g: Graph)
    ensures (exists n | n in g.nodes :: InDegree(g, n) == 0) ==>
              forall n :: n in Sources(g) <==> n in g.nodes && InDegree(g, n) == 0
    ensures (forall n | n in g.nodes :: InDegree(g, n) > 0) ==>
              forall n :: n in Sources(g) <==>
                n in g.nodes && forall m | m in g.nodes :: InDegree(g, n) <= InDegree(g, m)
    ensures |g.nodes| > 0 ==> |Sources(g)| > 0
    ensures forall n | n in Sources(g) :: n in g.nodes
  {
    var z := OfInDegree(g, g.nodes, 0);
    if exists n | n in g.nodes :: InDegree(g, n) == 0 {
      var n :| n in g.nodes && InDegree(g, n) == 0;
      assert n in z;
    } else if |g.nodes| > 0 {
      var m := MinInDegree(g, g.nodes);
      var n :| n in g.nodes && InDegree(g, n) == m;
      assert n in Sources(g);
    }
  }

  // ---------------------------------------------------------------- levels

  /** The order `_calculate_longest_path_levels` walks, as intended: a
      topological order, or on a cycle the cycle breaker's order. */
  function WalkOrder(sub: Graph): (o: seq<string>)
    requires Valid(sub)
    ensures Distinct(o) && forall n :: n in o <==> n in sub.nodes
  {
    TopoSortCorrect(sub);
    HandleCyclicPermutes(sub);
    match TopoSort(sub)
    case Some(o) => o
    case None => HandleCyclic(sub)
  }

  /** `_calculate_longest_path_levels`, as intended. */
  function LongestPathLevels(sub: Graph, sources: seq<string>): (lv: map<string, nat>)
    requires Valid(sub)
    ensures forall n :: n in lv <==> n in sub.nodes
  {
    LevelsAlong(sub, sources, WalkOrder(sub))
  }

  /** `_calculate_longest_path_levels` as written: on a cycle,
      `topological_sort` raises `NetworkXUnfeasible`, which the
      `except nx.NetworkXError` clause does not catch, so no levels come back
      (`None`) and the exception propagates to the caller. */
  function LongestPathLevelsAsWritten(sub: Graph, sources: seq<string>): (r: Option<map<string, nat>>)
    requires Valid(sub)
    ensures r.Some? <==> TopoSort(sub).Some?
  {
    match TopoSort(sub)
    case Some(o) => Some(LevelsAlong(sub, sources, o))
    case None => None
  }

  // ---------------------------------------------------------------- one component

  /** The orders and parallel-group labels given to the nodes of one
      component (or, merged, of the whole mapping). */
  datatype Assignment = Assignment(orders: map<string, nat>, groups: map<string, string>)

  /** The first group that holds `n`: the `for group_id, nodes_in_group`
      search. */
  function FindGroup(gs: seq<seq<string>>, n: string): (r: Option<nat>)
    ensures r.Some? ==> (r.value < |gs| && n in gs[r.value]
                         && forall j | 0 <= j < r.value :: n !in gs[j])
    ensures r.None? ==> forall j | 0 <= j < |gs| :: n !in gs[j]
    decreases |gs|
  {
    if |gs| == 0 then None
    else if n in gs[0] then Some(0)
    else
      match FindGroup(gs[1..], n)
      case None => None
      case Some(i) => Some(i + 1)
  }

  function LevelLabel(idx: nat, level: nat): (r: string) {
    "comp_" + NatToString(idx) + "_level_" + NatToString(level)
  }

  /** The label of a node of a larger component: its level and group, or
      `_single` when no group holds it. */
  function GroupLabel(idx: nat, level: nat, gid: Option<nat>): (r: string) {
    match gid
    case Some(g) => LevelLabel(idx, level) + "_group_" + NatToString(g)
    case None => LevelLabel(idx, level) + "_single"
  }

  /** The levels of `_calculate_longest_path_levels` taken along `walk`. */
  function WalkLevels(sub: Graph, walk: seq<string>): (lv: map<string, nat>)
    ensures forall n :: n in lv <==> n in walk
  {
    LevelsAlong(sub, Sources(sub), walk)
  }

  /** The parallel groups of `_identify_parallel_groups` for those levels. */
  function WalkGroups(sub: Graph, walk: seq<string>): (r: seq<seq<string>>)
    requires Valid(sub) && forall n | n in walk :: n in sub.nodes
  {
    Groups(sub, ItemsOf(walk, WalkLevels(sub, walk)))
  }

  /** Steps 2 to 4 of `_calculate_complex_order` on the levels taken along
      `walk`: order = level + 1, and the label of the node's group. */
  function LevelledOrder(sub: Graph, idx: nat, walk: seq<string>): (a: Assignment)
    requires Valid(sub) && forall n | n in walk :: n in sub.nodes
    ensures forall n :: n in a.orders <==> n in walk
    ensures forall n :: n in a.groups <==> n in walk
  {
    var lv := WalkLevels(sub, walk);
    var gs := WalkGroups(sub, walk);
    Assignment(
      map n | n in lv :: lv[n] + 1,
      map n | n in lv :: GroupLabel(idx, lv[n], FindGroup(gs, n)))
  }

  /** The assignment of step 4 is the only one that gives each walked node
      order `level + 1` and its group's label. */
  lemma LevelledOrderIs(sub: Graph, idx: nat, walk: seq<string>, x: Assignment)
    requires Valid(sub) && forall n | n in walk :: n in sub.nodes
    requires forall n :: n in x.orders <==> n in walk
    requires forall n :: n in x.groups <==> n in walk
    requires forall n | n in x.orders :: x.orders[n] == WalkLevels(sub, walk)[n] + 1
    requires forall n | n in x.groups ::
      x.groups[n] == GroupLabel(idx, WalkLevels(sub, walk)[n], FindGroup(WalkGroups(sub, walk), n))
    ensures x == LevelledOrder(sub, idx, walk)
  {
    SameAssignment(x, LevelledOrder(sub, idx, walk));
  }

  /** Along a walk that lists each node once, every node lands in some
      parallel group, and its label names the first one. */
  lemma LevelledOrderGrouped(sub: Graph, idx: nat, walk: seq<string>, n: string)
    requires Valid(sub) && Distinct(walk) && forall m | m in walk :: m in sub.nodes
    requires n in walk
    ensures FindGroup(WalkGroups(sub, walk), n).Some?
    ensures LevelledOrder(sub, idx, walk).groups[n]
              == GroupLabel(idx, WalkLevels(sub, walk)[n], FindGroup(WalkGroups(sub, walk), n))
    ensures LevelledOrder(sub, idx, walk).orders[n] == WalkLevels(sub, walk)[n] + 1
  {
    var items := ItemsOf(walk, WalkLevels(sub, walk));
    GroupsPartition(sub, items);
    var gs := WalkGroups(sub, walk);
    assert n in Flatten(gs);
    FlattenHas(gs, n);
  }

  lemma FlattenHas(gs: seq<seq<string>>, n: string)
    requires n in Flatten(gs)
    ensures FindGroup(gs, n).Some?
  {
    var i :| 0 <= i < |gs| && n in gs[i];
  }

  /** The fallback of `_calculate_complex_order`: breadth-first levels from
      the sources, order = level + 1, and a label without a group. */
  function BfsOrder(sub: Graph, idx: nat): (a: Assignment)
    requires Valid(sub)
    ensures forall n :: n in a.groups <==> n in a.orders
    ensures forall n | n in a.orders :: a.orders[n] >= 1 && a.groups[n] == LevelLabel(idx, a.orders[n] - 1)
  {
    SourcesSpec(sub);
    LevelOnly(Bfs(sub, Sources(sub)), idx)
  }

  /** Order = level + 1 and a label naming the level alone, for each levelled node. */
  function LevelOnly(lv: map<string, nat>, idx: nat): (a: Assignment)
    ensures forall n :: n in a.orders <==> n in lv
    ensures forall n :: n in a.groups <==> n in a.orders
    ensures forall n | n in a.orders :: a.orders[n] >= 1 && a.groups[n] == LevelLabel(idx, a.orders[n] - 1)
  {
    Assignment(map n | n in lv :: lv[n] + 1, map n | n in lv :: LevelLabel(idx, lv[n]))
  }

  /** `_calculate_complex_order` as intended: a cycle is handled by the
      cycle breaker. */
  function ComplexOrder(sub: Graph, idx: nat): (a: Assignment)
    requires Valid(sub)
    ensures forall n :: n in a.orders <==> n in sub.nodes
    ensures forall n :: n in a.groups <==> n in sub.nodes
  {
    LevelledOrder(sub, idx, WalkOrder(sub))
  }

  /** `_calculate_complex_order` as written: the exception a cycle raises in
      `_calculate_longest_path_levels` lands in the `except Exception`
      fallback, so every cyclic component is levelled breadth-first. */
  function ComplexOrderAsWritten(sub: Graph, idx: nat): (a: Assignment)
    requires Valid(sub)
    ensures TopoSort(sub).Some? ==> a == ComplexOrder(sub, idx)
    ensures TopoSort(sub).None? ==> forall n :: n in a.orders <==> n in ReachFrom(sub, set s | s in Sources(sub))
  {
    BfsOrderReach(sub, idx);
    match TopoSort(sub)
    case Some(o) =>
      TopoSortCorrect(sub);
      LevelledOrder(sub, idx, o)
    case None => BfsOrder(sub, idx)
  }

  /** Every node of the component gets an order of at least 1, one more
      than its level, and the label of the first parallel group that holds
      it; no node is labelled `_single`. */
  lemma ComplexOrderCovers(sub: Graph, idx: nat, n: string)
    requires Valid(sub)
    ensures n in ComplexOrder(sub, idx).orders <==> n in sub.nodes
    ensures n in ComplexOrder(sub, idx).groups <==> n in sub.nodes
    ensures n in sub.nodes ==>
      var g := FindGroup(WalkGroups(sub, WalkOrder(sub)), n);
      g.Some?
      && ComplexOrder(sub, idx).orders[n] == LongestPathLevels(sub, Sources(sub))[n] + 1
      && ComplexOrder(sub, idx).groups[n] == GroupLabel(idx, LongestPathLevels(sub, Sources(sub))[n], g)
  {
    if n in sub.nodes {
      LevelledOrderGrouped(sub, idx, WalkOrder(sub), n);
    }
  }

  /** On an acyclic component every edge climbs: the order of its target
      exceeds the order of its source. */
  lemma ComplexOrderMonotone(sub: Graph, idx: nat, e: Edge)
    requires Valid(sub) && TopoSort(sub).Some? && e in sub.edges
    ensures e.src in ComplexOrder(sub, idx).orders && e.dst in ComplexOrder(sub, idx).orders
    ensures ComplexOrder(sub, idx).orders[e.dst] >= ComplexOrder(sub, idx).orders[e.src] + 1
  {
    TopoSortCorrect(sub);
    var o := TopoSort(sub).value;
    assert WalkOrder(sub) == o;
    AcyclicSources(sub, o);
    LevelsMonotone(sub, Sources(sub), o, e);
  }

  /** On an acyclic graph some node has no incoming edge, so the sources
      are exactly the nodes of in-degree 0. */
  lemma AcyclicSources(sub: Graph, o: seq<string>)
    requires Valid(sub) && IsTopoOrder(sub, o)
    ensures forall v | v in sub.nodes :: v in Sources(sub) <==> InDegree(sub, v) == 0
  {
    if |o| > 0 {
      FirstHasNoPreds(sub, o);
      SourcesSpec(sub);
    }
  }

  lemma FirstHasNoPreds(sub: Graph, o: seq<string>)
    requires Valid(sub) && IsTopoOrder(sub, o) && |o| > 0
    ensures o[0] in sub.nodes && InDegree(sub, o[0]) == 0
  {
    var v := o[0];
    assert IndexOf(o, v) == 0;
    forall e | e in sub.edges
      ensures e.dst != v
    {
      assert IndexOf(o, e.src) < IndexOf(o, e.dst);
    }
  }

  /** The labels of the breadth-first fallback never name a group, and
      only the nodes reachable from the sources get an order. */
  /** The fallback orders exactly the nodes the sources reach. */
  lemma BfsOrderReach(sub: Graph, idx: nat)
    requires Valid(sub)
    ensures forall n :: n in BfsOrder(sub, idx).orders <==> n in ReachFrom(sub, set s | s in Sources(sub))
  {
    SourcesSpec(sub);
    BfsReach(sub, Sources(sub));
  }

  // ---------------------------------------------------------------- the finding

  /** A component with a cycle A -> B -> A that a source D reaches only
      through C: D -> C, A -> C, A -> B, B -> A. */
  function CyclicExample(): (r: Graph) {
    Graph(["A", "B", "C", "D"], [Edge("A", "B"), Edge("B", "A"), Edge("A", "C"), Edge("D", "C")])
  }

  lemma CyclicExampleValid()
    ensures Valid(CyclicExample())
  {
  }

  /** The example has no topological order: A must come before B and B
      before A. */
  lemma CyclicExampleCyclic()
    ensures Valid(CyclicExample()) && TopoSort(CyclicExample()).None?
  {
    var g := CyclicExample();
    CyclicExampleValid();
    TopoSortCorrect(g);
    forall o ensures !IsTopoOrder(g, o) {
      TwoCycleUnordered(g, o);
    }
  }

  /** No order puts A before B and B before A. */
  lemma TwoCycleUnordered(g: Graph, o: seq<string>)
    requires Edge("A", "B") in g.edges && Edge("B", "A") in g.edges
    ensures !IsTopoOrder(g, o)
  {
  }

  /** An element of a four-element list is one of its four entries. */
  lemma InFour<T>(s: seq<T>, x: T)
    requires |s| == 4 && x in s
    ensures x == s[0] || x == s[1] || x == s[2] || x == s[3]
  {
  }

  /** D is the only node of the example with no incoming edge. */
  lemma CyclicExampleSources()
    ensures forall n :: n in Sources(CyclicExample()) <==> n == "D"
  {
    var g := CyclicExample();
    CyclicExampleDegrees();
    SourcesSpec(g);
    assert "D" in g.nodes;
  }

  lemma CyclicExampleDegrees()
    ensures InDegree(CyclicExample(), "D") == 0
    ensures forall n | n in CyclicExample().nodes && n != "D" :: InDegree(CyclicExample(), n) > 0
  {
    var g := CyclicExample();
    forall e | e in g.edges
      ensures e.dst != "D"
    {
      InFour(g.edges, e);
    }
    NoPredecessor(g, "D");
    HasPredecessor(g, Edge("B", "A"));
    HasPredecessor(g, Edge("A", "B"));
    HasPredecessor(g, Edge("A", "C"));
    forall n | n in g.nodes && n != "D" ensures InDegree(g, n) > 0 {
      InFour(g.nodes, n);
    }
  }

  lemma HasPredecessor(g: Graph, e: Edge)
    requires e in g.edges
    ensures InDegree(g, e.dst) > 0
  {
    assert e.src in Preds(g, e.dst);
  }

  lemma NoPredecessor(g: Graph, v: string)
    requires forall e | e in g.edges :: e.dst != v
    ensures InDegree(g, v) == 0
  {
  }

  /** From D only D and C can be reached. */
  lemma CyclicExampleReach()
    ensures Valid(CyclicExample())
    ensures ReachFrom(CyclicExample(), {"D"}) <= {"D", "C"}
  {
    CyclicExampleValid();
    CyclicExampleClosed();
    ReachLeast(CyclicExample(), {"D"}, {"D", "C"});
  }

  /** No edge of the example leaves D and C. */
  lemma CyclicExampleClosed()
    ensures Post(CyclicExample(), {"D", "C"}) <= {"D", "C"}
  {
    var g := CyclicExample();
    forall e | e in g.edges && e.src in {"D", "C"}
      ensures e.dst in {"D", "C"}
    {
      InFour(g.edges, e);
    }
  }

  /** As written, the cycle breaker is never used: the example is levelled
      breadth-first from D, so A and B, which D does not reach, get no order
      at all. */
  lemma CycleSkipsBreaker()
    ensures Valid(CyclicExample())
    ensures ComplexOrderAsWritten(CyclicExample(), 0) == BfsOrder(CyclicExample(), 0)
    ensures "A" !in ComplexOrderAsWritten(CyclicExample(), 0).orders
    ensures "B" !in ComplexOrderAsWritten(CyclicExample(), 0).orders
  {
    var g := CyclicExample();
    CyclicExampleCyclic();
    CyclicExampleSources();
    var start := set s | s in Sources(g);
    assert start == {"D"};
    CyclicExampleReach();
    AsWrittenUnreached(g, 0, "A");
    AsWrittenUnreached(g, 0, "B");
  }

  /** As written, a component with no topological order is levelled
      breadth-first, and a node its sources do not reach gets no order. */
  lemma AsWrittenUnreached(sub: Graph, idx: nat, n: string)
    requires Valid(sub) && TopoSort(sub).None?
    requires n !in ReachFrom(sub, set s | s in Sources(sub))
    ensures ComplexOrderAsWritten(sub, idx) == BfsOrder(sub, idx)
    ensures n !in ComplexOrderAsWritten(sub, idx).orders
  {
  }

  /** As intended, every node of every component, cyclic or not, gets an
      order and the label of a parallel group; on the example A, B, C and D
      are all ordered. */
  lemma CycleUsesBreaker()
    ensures Valid(CyclicExample())
    ensures forall n :: n in ComplexOrder(CyclicExample(), 0).orders <==> n in ["A", "B", "C", "D"]
  {
    CyclicExampleValid();
    forall n ensures n in ComplexOrder(CyclicExample(), 0).orders <==> n in ["A", "B", "C", "D"] {
      ComplexOrderCovers(CyclicExample(), 0, n);
    }
  }

  // ---------------------------------------------------------------- the whole mapping

  lemma SubgraphNonEmpty(g: Graph, c: set<string>)
    requires c <= NodeSet(g) && c != {}
    ensures |Subgraph(g, c).nodes| > 0 && Subgraph(g, c).nodes[0] in c
  {
    var x :| x in c;
    assert x in NodeSet(Subgraph(g, c));
  }

  lemma Singleton(c: set<string>, n: string)
    requires |c| == 1 && n in c
    ensures c == {n}
  {
    assert |c - {n}| == 0;
  }

  function IsolatedLabel(idx: nat): (r: string) {
    "isolated_" + NatToString(idx)
  }

  /** One iteration of the component loop of `_calculate_transformation_order`:
      the node of a one-node component gets order 0 and an `isolated_` label,
      a larger component its complex order. */
  function ComponentAssignment(g: Graph, c: set<string>, idx: nat): (a: Assignment)
    requires Valid(g) && c <= NodeSet(g) && c != {}
    ensures forall n :: n in a.orders <==> n in c
    ensures forall n :: n in a.groups <==> n in c
  {
    var sub := Subgraph(g, c);
    SubgraphNonEmpty(g, c);
    if |c| == 1 then
      var n := sub.nodes[0];
      Singleton(c, n);
      Assignment(map[n := 0], map[n := IsolatedLabel(idx)])
    else
      ComplexOrder(sub, idx)
  }

  /** Assignments merged in order, later ones overriding, as `dict.update`
      does. */
  function Merge(parts: seq<Assignment>): (a: Assignment)
    ensures forall n :: n in a.orders <==> exists i | 0 <= i < |parts| :: n in parts[i].orders
    ensures forall n :: n in a.groups <==> exists i | 0 <= i < |parts| :: n in parts[i].groups
  {
    if |parts| == 0 then Assignment(map[], map[])
    else
      var pre := Merge(parts[..|parts| - 1]);
      assert forall i | 0 <= i < |parts| - 1 :: parts[..|parts| - 1][i] == parts[i];
      Assignment(pre.orders + parts[|parts| - 1].orders, pre.groups + parts[|parts| - 1].groups)
  }

  /** A node that no later assignment mentions keeps what `parts[i]` gave it. */
  lemma {:induction false} MergeAt(parts: seq<Assignment>, i: nat, n: string)
    requires i < |parts| && n in parts[i].orders && n in parts[i].groups
    requires forall j | i < j < |parts| :: n !in parts[j].orders && n !in parts[j].groups
    ensures Merge(parts).orders[n] == parts[i].orders[n]
    ensures Merge(parts).groups[n] == parts[i].groups[n]
  {
    if i < |parts| - 1 {
      var pre := parts[..|parts| - 1];
      assert pre[i] == parts[i];
      assert forall j | i < j < |pre| :: pre[j] == parts[j];
      MergeAt(pre, i, n);
    }
  }

  /** Merging one more assignment is one more `dict.update`. */
  lemma MergeStep(parts: seq<Assignment>, p: Assignment)
    ensures Merge(parts + [p]) == Assignment(Merge(parts).orders + p.orders, Merge(parts).groups + p.groups)
  {
    assert (parts + [p])[..|parts|] == parts;
  }

  /** The merge of a prefix one element longer. */
  lemma MergePrefix(parts: seq<Assignment>, i: nat)
    requires 0 < i <= |parts|
    ensures Merge(parts[..i]) ==
      Assignment(Merge(parts[..i - 1]).orders + parts[i - 1].orders, Merge(parts[..i - 1]).groups + parts[i - 1].groups)
  {
    MergeStep(parts[..i - 1], parts[i - 1]);
    assert parts[..i] == parts[..i - 1] + [parts[i - 1]];
  }

  /** The assignment of every component, by index. */
  function ComponentAssignments(g: Graph, cs: seq<set<string>>): (parts: seq<Assignment>)
    requires Valid(g) && forall c | c in cs :: c <= NodeSet(g) && c != {}
    ensures |parts| == |cs|
    ensures forall i | 0 <= i < |cs| :: parts[i] == ComponentAssignment(g, cs[i], i)
  {
    seq(|cs|, i requires 0 <= i < |cs| => ComponentAssignment(g, cs[i], i))
  }

  /** The components' assignments merged in order. */
  function AssignComponents(g: Graph, cs: seq<set<string>>): (a: Assignment)
    requires Valid(g) && forall c | c in cs :: c <= NodeSet(g) && c != {}
    ensures a.orders.Keys == a.groups.Keys
  {
    var parts := ComponentAssignments(g, cs);
    var a := Merge(parts);
    assert forall n :: n in a.orders <==> n in a.groups by {
      forall n ensures n in a.orders <==> n in a.groups {
        if n in a.orders {
          var i :| 0 <= i < |parts| && n in parts[i].orders;
        }
        if n in a.groups {
          var i :| 0 <= i < |parts| && n in parts[i].groups;
        }
      }
    }
    a
  }

  /** The assignments of the first `i` components merged, as the component
      loop holds them after `i` rounds. */
  function AssignFirst(g: Graph, cs: seq<set<string>>, i: nat): (r: Assignment)
    requires Valid(g) && (forall c | c in cs :: c <= NodeSet(g) && c != {}) && i <= |cs|
  {
    if i == 0 then Assignment(map[], map[])
    else
      var p := AssignFirst(g, cs, i - 1);
      var c := ComponentAssignment(g, cs[i - 1], i - 1);
      Assignment(p.orders + c.orders, p.groups + c.groups)
  }

  /** After every round the loop holds the merge of the components seen. */
  lemma {:induction false} AssignFirstMerges(g: Graph, cs: seq<set<string>>, i: nat)
    requires Valid(g) && (forall c | c in cs :: c <= NodeSet(g) && c != {}) && i <= |cs|
    ensures AssignFirst(g, cs, i) == Merge(ComponentAssignments(g, cs)[..i])
  {
    if i > 0 {
      AssignFirstMerges(g, cs, i - 1);
      MergePrefix(ComponentAssignments(g, cs), i);
    }
  }

  /** The "unconnected" fill: every name of the logic cache without an order
      gets order 0 and the label `unconnected`. */
  function FillUnconnected(a: Assignment, names: set<string>): (r: Assignment)
    requires a.orders.Keys == a.groups.Keys
    ensures r.orders.Keys == r.groups.Keys == a.orders.Keys + names
    ensures forall n | n in a.orders :: r.orders[n] == a.orders[n] && r.groups[n] == a.groups[n]
    ensures forall n | n in names && n !in a.orders :: r.orders[n] == 0 && r.groups[n] == "unconnected"
  {
    var added := set n | n in names && n !in a.orders;
    Assignment(a.orders + map n | n in added :: 0, a.groups + map n | n in added :: "unconnected")
  }

  /** Two assignments with the same keys and values are equal. */
  lemma SameAssignment(x: Assignment, y: Assignment)
    requires forall n :: n in x.orders <==> n in y.orders
    requires forall n :: n in x.groups <==> n in y.groups
    requires forall n | n in x.orders :: x.orders[n] == y.orders[n]
    requires forall n | n in x.groups :: x.groups[n] == y.groups[n]
    ensures x == y
  {
    assert x.orders == y.orders;
    assert x.groups == y.groups;
  }

  /** The fill is the only assignment that keeps what `a` holds and adds
      every other name as unconnected at order 0. */
  lemma FillUnconnectedIs(a: Assignment, names: set<string>, x: Assignment)
    requires a.orders.Keys == a.groups.Keys
    requires forall n :: n in x.orders <==> n in a.orders || n in names
    requires forall n :: n in x.groups <==> n in a.orders || n in names
    requires forall n | n in a.orders :: x.orders[n] == a.orders[n] && x.groups[n] == a.groups[n]
    requires forall n | n in names && n !in a.orders :: x.orders[n] == 0 && x.groups[n] == "unconnected"
    ensures x == FillUnconnected(a, names)
  {
    SameAssignment(x, FillUnconnected(a, names));
  }

  lemma ComponentsWithin(g: Graph)
    requires Valid(g)
    ensures forall c | c in WeakComponents(g) :: c <= NodeSet(g) && c != {}
    ensures Union(WeakComponents(g)) == NodeSet(g)
  {
    WeakComponentsPartition(g);
  }

  /** `_calculate_transformation_order` (with its cycle fixed): the
      components' assignments, then the fill from the names the logic cache
      holds for the mapping, when it holds any. */
  function TransformationOrder(g: Graph, cacheNames: Option<set<string>>): (a: Assignment)
    requires Valid(g)
    ensures a.orders.Keys == a.groups.Keys
  {
    ComponentsWithin(g);
    var a := AssignComponents(g, WeakComponents(g));
    match cacheNames
    case None => a
    case Some(names) => FillUnconnected(a, names)
  }

  /** Merging assignments over disjoint node sets loses nothing. */
  lemma MergeDisjoint(parts: seq<Assignment>, cs: seq<set<string>>, i: nat, n: string)
    requires |parts| == |cs| && Disjoint(cs) && i < |cs| && n in cs[i]
    requires forall j, m | 0 <= j < |cs| :: (m in parts[j].orders <==> m in cs[j]) && (m in parts[j].groups <==> m in cs[j])
    ensures n in Merge(parts).orders && n in Merge(parts).groups
    ensures Merge(parts).orders[n] == parts[i].orders[n]
    ensures Merge(parts).groups[n] == parts[i].groups[n]
  {
    forall j | i < j < |parts|
      ensures n !in parts[j].orders && n !in parts[j].groups
    {
      assert cs[i] * cs[j] == {};
      assert n !in cs[i] * cs[j];
    }
    MergeAt(parts, i, n);
  }

  /** Disjoint components do not overwrite each other: a node keeps what its
      own component assigned it. */
  lemma AssignComponentsAt(g: Graph, cs: seq<set<string>>, i: nat, n: string)
    requires Valid(g) && (forall c | c in cs :: c <= NodeSet(g) && c != {}) && Disjoint(cs)
    requires i < |cs| && n in cs[i]
    ensures n in AssignComponents(g, cs).orders
    ensures AssignComponents(g, cs).orders[n] == ComponentAssignment(g, cs[i], i).orders[n]
    ensures AssignComponents(g, cs).groups[n] == ComponentAssignment(g, cs[i], i).groups[n]
  {
    var parts := ComponentAssignments(g, cs);
    forall j, m | 0 <= j < |cs|
      ensures (m in parts[j].orders <==> m in cs[j]) && (m in parts[j].groups <==> m in cs[j])
    {
      assert cs[j] in cs;
    }
    MergeDisjoint(parts, cs, i, n);
  }

  /** Every node of the graph gets an order and a label: 0 and `isolated_<i>`
      in a one-node component, otherwise its complex order, which is at
      least 1. */
  lemma TransformationOrderAt(g: Graph, i: nat, n: string)
    requires Valid(g) && i < |WeakComponents(g)| && n in WeakComponents(g)[i]
    ensures var a := TransformationOrder(g, None);
      var c := WeakComponents(g)[i];
      n in a.orders && n in a.groups
      && (|c| == 1 ==> a.orders[n] == 0 && a.groups[n] == IsolatedLabel(i))
      && (|c| > 1 ==> a.orders[n] == ComplexOrder(Subgraph(g, c), i).orders[n] >= 1
                      && a.groups[n] == ComplexOrder(Subgraph(g, c), i).groups[n])
  {
    var cs := WeakComponents(g);
    WeakComponentsPartition(g);
    ComponentsWithin(g);
    AssignComponentsAt(g, cs, i, n);
    var c := cs[i];
    if |c| > 1 {
      assert n in Subgraph(g, c).nodes by {
        assert n in NodeSet(Subgraph(g, c));
      }
      ComplexOrderCovers(Subgraph(g, c), i, n);
    }
  }

  /** Each node lies in exactly one component. */
  lemma ComponentOf(g: Graph, n: string) returns (i: nat)
    requires Valid(g) && n in g.nodes
    ensures i < |WeakComponents(g)| && n in WeakComponents(g)[i]
  {
    WeakComponentsPartition(g);
    UnionIff(WeakComponents(g), n);
    i :| 0 <= i < |WeakComponents(g)| && n in WeakComponents(g)[i];
  }

  /** An edge never leaves its weak component. */
  lemma EdgeInComponent(g: Graph, i: nat, e: Edge)
    requires Valid(g) && i < |WeakComponents(g)| && e in g.edges && e.src in WeakComponents(g)[i]
    ensures e.dst in WeakComponents(g)[i]
    ensures e in Subgraph(g, WeakComponents(g)[i]).edges
  {
    WeakComponentsPartition(g);
    var c := WeakComponents(g)[i];
    assert IsComponent(g, c);
    assert e.dst in UPost(g, c);
  }

  /** A self-loop has no topological order. */
  lemma SelfLoopUnordered(g: Graph, e: Edge, o: seq<string>)
    requires e in g.edges && e.src == e.dst
    ensures !IsTopoOrder(g, o)
  {
  }

  lemma SelfLoopCyclic(g: Graph, e: Edge)
    requires Valid(g) && e in g.edges && e.src == e.dst
    ensures TopoSort(g).None?
  {
    TopoSortCorrect(g);
    forall o ensures !IsTopoOrder(g, o) {
      SelfLoopUnordered(g, e, o);
    }
  }

  /** Within an acyclic component every edge climbs to a higher order. */
  lemma TransformationOrderMonotone(g: Graph, i: nat, e: Edge)
    requires Valid(g) && i < |WeakComponents(g)| && e in g.edges && e.src in WeakComponents(g)[i]
    requires TopoSort(Subgraph(g, WeakComponents(g)[i])).Some?
    ensures var a := TransformationOrder(g, None);
      e.src in a.orders && e.dst in a.orders && a.orders[e.dst] >= a.orders[e.src] + 1
  {
    var c := WeakComponents(g)[i];
    var sub := Subgraph(g, c);
    EdgeInComponent(g, i, e);
    TransformationOrderAt(g, i, e.src);
    TransformationOrderAt(g, i, e.dst);
    if |c| == 1 {
      var n := sub.nodes[0];
      SubgraphNonEmpty(g, c);
      Singleton(c, n);
      SelfLoopCyclic(sub, e);
      assert false;
    }
    ComplexOrderMonotone(sub, i, e);
  }
}
