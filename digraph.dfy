/** A finite directed graph with string nodes, restating the parts of
    networkx's `DiGraph` that the lineage engine calls: `add_node`,
    `add_edge`, `remove_edge`, `has_edge`, predecessors and successors (in
    edge insertion order), in- and out-degree, induced subgraphs, `has_path`,
    weakly and strongly connected components, and topological sorting.
    Nodes are kept in insertion order, edges are distinct. */
module Digraph {
  import opened Wrappers
  import Seqs

  datatype Edge = Edge(src: string, dst: string)

  datatype Graph = Graph(nodes: seq<string>, edges: seq<Edge>)

  predicate Distinct<T(==)>(s: seq<T>) {
    forall i, j | 0 <= i < j < |s| :: s[i] != s[j]
  }

  function NodeSet(g: Graph): (r: set<string>) {
    set n | n in g.nodes
  }

  predicate Valid(g: Graph) {
    Distinct(g.nodes) && Distinct(g.edges)
    && forall e | e in g.edges :: e.src in g.nodes && e.dst in g.nodes
  }

  function Empty(): (g: Graph)
    ensures Valid(g) && NodeSet(g) == {}
  {
    Graph([], [])
  }

  // ---------------------------------------------------------------- building

  /** `G.add_node(n)`: a node already present is left where it is. */
  function AddNode(g: Graph, n: string): (r: Graph)
    ensures Valid(g) ==> Valid(r)
    ensures r.edges == g.edges
    ensures r.nodes == if n in g.nodes then g.nodes else g.nodes + [n]
  {
    if n in g.nodes then g else Graph(g.nodes + [n], g.edges)
  }

  /** `G.add_edge(u, v)`: missing endpoints are added as nodes, `u` first; a
      repeated edge is not added twice. */
  function AddEdge(g: Graph, u: string, v: string): (r: Graph)
    ensures Valid(g) ==> Valid(r)
    ensures forall n :: n in r.nodes <==> n in g.nodes || n == u || n == v
    ensures r.nodes == AddNode(AddNode(g, u), v).nodes
    ensures r.edges == if Edge(u, v) in g.edges then g.edges else g.edges + [Edge(u, v)]
  {
    var h := AddNode(AddNode(g, u), v);
    if Edge(u, v) in h.edges then h else Graph(h.nodes, h.edges + [Edge(u, v)])
  }

  predicate HasEdge(g: Graph, u: string, v: string) {
    Edge(u, v) in g.edges
  }

  function RemoveFrom(es: seq<Edge>, e: Edge): (r: seq<Edge>)
    ensures forall x :: x in r <==> x in es && x != e
    ensures Distinct(es) ==> Distinct(r)
    ensures |r| <= |es|
  {
    if |es| == 0 then []
    else
      var rest := RemoveFrom(es[..|es| - 1], e);
      assert Distinct(es) ==> Distinct(es[..|es| - 1]) && es[|es| - 1] !in es[..|es| - 1];
      if es[|es| - 1] == e then rest else rest + [es[|es| - 1]]
  }

  /** `G.remove_edge(u, v)`; the nodes are kept. */
  function RemoveEdge(g: Graph, u: string, v: string): (r: Graph)
    ensures Valid(g) ==> Valid(r)
    ensures r.nodes == g.nodes
    ensures forall e :: e in r.edges <==> e in g.edges && e != Edge(u, v)
  {
    Graph(g.nodes, RemoveFrom(g.edges, Edge(u, v)))
  }

  // ---------------------------------------------------------------- neighbours

  function PredsIn(es: seq<Edge>, v: string): (r: seq<string>)
    ensures forall u :: u in r <==> Edge(u, v) in es
    ensures Distinct(es) ==> Distinct(r)
    ensures |r| <= |es|
    ensures (forall e | e in es :: e.dst != v) ==> r == []
  {
    if |es| == 0 then []
    else
      var rest := PredsIn(es[..|es| - 1], v);
      var e := es[|es| - 1];
      assert Distinct(es) ==> Distinct(es[..|es| - 1]);
      if e.dst == v then
        assert Distinct(es) ==> e.src !in rest;
        rest + [e.src]
      else rest
  }

  function SuccsIn(es: seq<Edge>, u: string): (r: seq<string>)
    ensures forall v :: v in r <==> Edge(u, v) in es
    ensures Distinct(es) ==> Distinct(r)
    ensures |r| <= |es|
  {
    if |es| == 0 then []
    else
      var rest := SuccsIn(es[..|es| - 1], u);
      var e := es[|es| - 1];
      assert Distinct(es) ==> Distinct(es[..|es| - 1]);
      if e.src == u then
        assert Distinct(es) ==> e.dst !in rest;
        rest + [e.dst]
      else rest
  }

  /** `G.predecessors(v)`, in the order the edges were added. */
  function Preds(g: Graph, v: string): (r: seq<string>) {
    PredsIn(g.edges, v)
  }

  /** `G.successors(u)`, in the order the edges were added. */
  function Succs(g: Graph, u: string): (r: seq<string>) {
    SuccsIn(g.edges, u)
  }

  function InDegree(g: Graph, v: string): (r: nat) {
    |Preds(g, v)|
  }

  function OutDegree(g: Graph, u: string): (r: nat) {
    |Succs(g, u)|
  }

  // ---------------------------------------------------------------- subgraphs

  function FilterNodes(ns: seq<string>, keep: set<string>): (r: seq<string>)
    ensures forall n :: n in r <==> n in ns && n in keep
    ensures Distinct(ns) ==> Distinct(r)
  {
    if |ns| == 0 then []
    else
      var rest := FilterNodes(ns[..|ns| - 1], keep);
      var n := ns[|ns| - 1];
      assert Distinct(ns) ==> n !in ns[..|ns| - 1];
      if n in keep then rest + [n] else rest
  }

  function FilterEdges(es: seq<Edge>, keep: set<string>): (r: seq<Edge>)
    ensures forall e :: e in r <==> e in es && e.src in keep && e.dst in keep
    ensures Distinct(es) ==> Distinct(r)
  {
    if |es| == 0 then []
    else
      var rest := FilterEdges(es[..|es| - 1], keep);
      var e := es[|es| - 1];
      assert Distinct(es) ==> e !in es[..|es| - 1];
      if e.src in keep && e.dst in keep then rest + [e] else rest
  }

  /** `G.subgraph(keep)`: the nodes of `keep`, in the graph's node order, and
      every edge between two of them. */
  function Subgraph(g: Graph, keep: set<string>): (r: Graph)
    ensures Valid(g) ==> Valid(r)
    ensures NodeSet(r) == NodeSet(g) * keep
    ensures forall e :: e in r.edges <==> e in g.edges && e.src in keep && e.dst in keep
  {
    Graph(FilterNodes(g.nodes, keep), FilterEdges(g.edges, keep))
  }

  /** The graph with every edge turned around. */
  function Reverse(g: Graph): (r: Graph)
    ensures Valid(g) ==> Valid(r)
    ensures r.nodes == g.nodes
    ensures forall u, v :: Edge(u, v) in r.edges <==> Edge(v, u) in g.edges
  {
    var es := seq(|g.edges|, i requires 0 <= i < |g.edges| => Edge(g.edges[i].dst, g.edges[i].src));
    assert forall u, v :: Edge(u, v) in es <==> Edge(v, u) in g.edges by {
      forall u, v ensures Edge(u, v) in es <==> Edge(v, u) in g.edges {
        if Edge(v, u) in g.edges {
          var i :| 0 <= i < |g.edges| && g.edges[i] == Edge(v, u);
          assert es[i] == Edge(u, v);
        }
      }
    }
    assert Distinct(g.edges) ==> Distinct(es) by {
      if Distinct(g.edges) {
        forall i, j | 0 <= i < j < |es| ensures es[i] != es[j] {
          assert g.edges[i] != g.edges[j];
        }
      }
    }
    Graph(g.nodes, es)
  }

  // ---------------------------------------------------------------- paths

  /** A walk along edges; a single node is a walk of length zero. */
  ghost predicate IsPath(g: Graph, p: seq<string>) {
    |p| > 0 && forall i | 0 <= i < |p| - 1 :: Edge(p[i], p[i + 1]) in g.edges
  }

  ghost predicate Path(g: Graph, u: string, v: string) {
    exists p :: IsPath(g, p) && p[0] == u && p[|p| - 1] == v
  }

  /** The nodes one edge away from `r`. */
  function Post(g: Graph, r: set<string>): (res: set<string>) {
    set e | e in g.edges && e.src in r :: e.dst
  }

  lemma StrictSubsetCard<T>(a: set<T>, b: set<T>)
    requires a < b
    ensures |a| < |b|
  {
    assert b - a != {};
    assert b == a + (b - a);
  }

  /** The closure of `r` under `Post`: every node reachable from `r`. */
  function ReachFrom(g: Graph, r: set<string>): (c: set<string>)
    requires Valid(g) && r <= NodeSet(g)
    ensures r <= c <= NodeSet(g)
    ensures Post(g, c) <= c
    decreases |NodeSet(g) - r|
  {
    var r' := r + Post(g, r);
    if r' <= r then r
    else
      assert NodeSet(g) - r' < NodeSet(g) - r;
      StrictSubsetCard(NodeSet(g) - r', NodeSet(g) - r);
      ReachFrom(g, r')
  }

  /** `nx.has_path(G, u, v)`. */
  predicate HasPath(g: Graph, u: string, v: string)
    requires Valid(g) && u in g.nodes
  {
    v in ReachFrom(g, {u})
  }

  lemma {:induction false} ReachSound(g: Graph, r: set<string>, u: string)
    requires Valid(g) && r <= NodeSet(g)
    requires forall x | x in r :: Path(g, u, x)
    ensures forall x | x in ReachFrom(g, r) :: Path(g, u, x)
    decreases |NodeSet(g) - r|
  {
    var r' := r + Post(g, r);
    if !(r' <= r) {
      forall x | x in r' ensures Path(g, u, x) {
        if x !in r {
          var e :| e in g.edges && e.src in r && e.dst == x;
          var p :| IsPath(g, p) && p[0] == u && p[|p| - 1] == e.src;
          assert IsPath(g, p + [x]);
          assert (p + [x])[0] == u;
        }
      }
      assert NodeSet(g) - r' < NodeSet(g) - r;
      StrictSubsetCard(NodeSet(g) - r', NodeSet(g) - r);
      ReachSound(g, r', u);
    }
  }

  /** The closure is the least `Post`-closed superset of `r`. */
  lemma {:induction false} ReachLeast(g: Graph, r: set<string>, c: set<string>)
    requires Valid(g) && r <= c <= NodeSet(g) && Post(g, c) <= c
    ensures ReachFrom(g, r) <= c
    decreases |NodeSet(g) - r|
  {
    var r' := r + Post(g, r);
    if !(r' <= r) {
      assert NodeSet(g) - r' < NodeSet(g) - r;
      StrictSubsetCard(NodeSet(g) - r', NodeSet(g) - r);
      ReachLeast(g, r', c);
    }
  }

  lemma {:induction false} ClosedHoldsPath(g: Graph, c: set<string>, p: seq<string>)
    requires IsPath(g, p) && p[0] in c && Post(g, c) <= c
    ensures p[|p| - 1] in c
    decreases |p|
  {
    if |p| > 1 {
      var q := p[..|p| - 1];
      assert IsPath(g, q);
      ClosedHoldsPath(g, c, q);
      var e := Edge(p[|p| - 2], p[|p| - 1]);
      assert e in g.edges && e.src in c;
      assert e.dst in Post(g, c);
    }
  }

  /** `has_path` holds exactly when a walk leads from `u` to `v`. */
  lemma HasPathIff(g: Graph, u: string, v: string)
    requires Valid(g) && u in g.nodes
    ensures HasPath(g, u, v) <==> Path(g, u, v)
  {
    assert IsPath(g, [u]);
    ReachSound(g, {u}, u);
    if Path(g, u, v) {
      var p :| IsPath(g, p) && p[0] == u && p[|p| - 1] == v;
      ClosedHoldsPath(g, ReachFrom(g, {u}), p);
    }
  }

  lemma PathReverse(g: Graph, u: string, v: string)
    requires Path(g, u, v)
    ensures Path(Reverse(g), v, u)
  {
    var p :| IsPath(g, p) && p[0] == u && p[|p| - 1] == v;
    var q := seq(|p|, i requires 0 <= i < |p| => p[|p| - 1 - i]);
    forall i | 0 <= i < |q| - 1 ensures Edge(q[i], q[i + 1]) in Reverse(g).edges {
      var j := |p| - 2 - i;
      assert Edge(p[j], p[j + 1]) in g.edges;
    }
    assert IsPath(Reverse(g), q);
  }

  lemma ReverseReverse(g: Graph)
    ensures forall u, v :: Edge(u, v) in Reverse(Reverse(g)).edges <==> Edge(u, v) in g.edges
  {
  }

  lemma PathSameEdges(g: Graph, h: Graph, u: string, v: string)
    requires forall a, b :: Edge(a, b) in g.edges <==> Edge(a, b) in h.edges
    requires Path(g, u, v)
    ensures Path(h, u, v)
  {
    var p :| IsPath(g, p) && p[0] == u && p[|p| - 1] == v;
    forall i | 0 <= i < |p| - 1 ensures Edge(p[i], p[i + 1]) in h.edges {
      assert Edge(p[i], p[i + 1]) in g.edges;
    }
    assert IsPath(h, p);
  }

  lemma PathReverseIff(g: Graph, u: string, v: string)
    ensures Path(Reverse(g), v, u) <==> Path(g, u, v)
  {
    if Path(g, u, v) {
      PathReverse(g, u, v);
    }
    if Path(Reverse(g), v, u) {
      PathReverse(Reverse(g), v, u);
      ReverseReverse(g);
      PathSameEdges(Reverse(Reverse(g)), g, u, v);
    }
  }

  // ---------------------------------------------------------------- weak components

  /** The nodes one edge away from `r` in either direction. */
  function UPost(g: Graph, r: set<string>): (res: set<string>) {
    (set e | e in g.edges && e.src in r :: e.dst) + (set e | e in g.edges && e.dst in r :: e.src)
  }

  function UReachFrom(g: Graph, r: set<string>): (c: set<string>)
    requires Valid(g) && r <= NodeSet(g)
    ensures r <= c <= NodeSet(g)
    ensures UPost(g, c) <= c
    decreases |NodeSet(g) - r|
  {
    var r' := r + UPost(g, r);
    if r' <= r then r
    else
      assert NodeSet(g) - r' < NodeSet(g) - r;
      StrictSubsetCard(NodeSet(g) - r', NodeSet(g) - r);
      UReachFrom(g, r')
  }

  /** A set closed under `UPost` that meets the undirected closure of `r`
      already meets `r`: the undirected neighbour relation is symmetric. */
  lemma {:induction false} UReachBack(g: Graph, r: set<string>, c: set<string>)
    requires Valid(g) && r <= NodeSet(g) && UPost(g, c) <= c
    requires UReachFrom(g, r) * c != {}
    ensures r * c != {}
    decreases |NodeSet(g) - r|
  {
    var r' := r + UPost(g, r);
    if !(r' <= r) {
      assert NodeSet(g) - r' < NodeSet(g) - r;
      StrictSubsetCard(NodeSet(g) - r', NodeSet(g) - r);
      UReachBack(g, r', c);
      var x :| x in r' * c;
      if x !in r {
        UPostBack(g, r, c, x);
      }
    }
  }

  /** A neighbour of `r` inside a set closed under `UPost` puts a node of
      `r` in that set. */
  lemma UPostBack(g: Graph, r: set<string>, c: set<string>, x: string)
    requires UPost(g, c) <= c && x in UPost(g, r) && x in c
    ensures r * c != {}
  {
    if e :| e in g.edges && e.src in r && e.dst == x {
      assert e.src in UPost(g, c);
      assert e.src in r * c;
    } else {
      var e :| e in g.edges && e.dst in r && e.src == x;
      assert e.dst in UPost(g, c);
      assert e.dst in r * c;
    }
  }

  function Union(cs: seq<set<string>>): (r: set<string>) {
    if |cs| == 0 then {} else Union(cs[..|cs| - 1]) + cs[|cs| - 1]
  }

  lemma {:induction false} UnionIff(cs: seq<set<string>>, n: string)
    ensures n in Union(cs) <==> exists i | 0 <= i < |cs| :: n in cs[i]
  {
    if |cs| > 0 {
      UnionIff(cs[..|cs| - 1], n);
      if n in Union(cs[..|cs| - 1]) {
        var i :| 0 <= i < |cs| - 1 && n in cs[..|cs| - 1][i];
        assert n in cs[i];
      }
    }
  }

  /** The components of the nodes in `ns`, each found from its first node
      not yet covered. */
  function ComponentsOf(g: Graph, ns: seq<string>): (cs: seq<set<string>>)
    requires Valid(g) && forall n | n in ns :: n in g.nodes
    decreases |ns|
  {
    if |ns| == 0 then []
    else
      var cs := ComponentsOf(g, ns[..|ns| - 1]);
      var n := ns[|ns| - 1];
      if n in Union(cs) then cs
      else cs + [UReachFrom(g, {n})]
  }

  /** `nx.weakly_connected_components(G)`, in the order of each component's
      first node. */
  function WeakComponents(g: Graph): (r: seq<set<string>>)
    requires Valid(g)
  {
    ComponentsOf(g, g.nodes)
  }

  /** A weakly connected component: nonempty, closed under edges in both
      directions, and everything connected to one of its nodes. */
  ghost predicate IsComponent(g: Graph, c: set<string>)
    requires Valid(g)
  {
    c != {} && c <= NodeSet(g) && UPost(g, c) <= c
    && exists n | n in c :: c == UReachFrom(g, {n})
  }

  ghost predicate Disjoint(cs: seq<set<string>>) {
    forall i, j | 0 <= i < j < |cs| :: cs[i] * cs[j] == {}
  }

  ghost predicate IsComponentList(g: Graph, cs: seq<set<string>>, covered: set<string>)
    requires Valid(g)
  {
    (forall i | 0 <= i < |cs| :: IsComponent(g, cs[i])) && Disjoint(cs) && Union(cs) == covered
  }

  lemma AddComponent(g: Graph, cs: seq<set<string>>, n: string)
    requires Valid(g) && n in g.nodes
    requires (forall i | 0 <= i < |cs| :: IsComponent(g, cs[i])) && Disjoint(cs)
    requires n !in Union(cs)
    ensures var cs' := cs + [UReachFrom(g, {n})];
      (forall i | 0 <= i < |cs'| :: IsComponent(g, cs'[i])) && Disjoint(cs')
  {
    var cn := UReachFrom(g, {n});
    forall i | 0 <= i < |cs| ensures cs[i] * cn == {} {
      if cs[i] * cn != {} {
        UReachBack(g, {n}, cs[i]);
        UnionIff(cs, n);
        assert false;
      }
    }
    assert IsComponent(g, cn) by {
      assert n in cn;
    }
    AppendDisjoint(cs, cn);
    AppendComponent(g, cs, cn);
  }

  lemma AppendDisjoint(cs: seq<set<string>>, c: set<string>)
    requires Disjoint(cs) && forall i | 0 <= i < |cs| :: cs[i] * c == {}
    ensures Disjoint(cs + [c])
  {
  }

  lemma AppendComponent(g: Graph, cs: seq<set<string>>, c: set<string>)
    requires Valid(g) && (forall i | 0 <= i < |cs| :: IsComponent(g, cs[i])) && IsComponent(g, c)
    ensures forall i | 0 <= i < |cs + [c]| :: IsComponent(g, (cs + [c])[i])
  {
    forall i | 0 <= i < |cs + [c]| ensures IsComponent(g, (cs + [c])[i]) {
      if i < |cs| { assert (cs + [c])[i] == cs[i]; }
    }
  }

  lemma {:induction false} ComponentsOfPartition(g: Graph, ns: seq<string>)
    requires Valid(g) && forall n | n in ns :: n in g.nodes
    ensures var cs := ComponentsOf(g, ns);
      (forall i | 0 <= i < |cs| :: IsComponent(g, cs[i])) && Disjoint(cs)
      && forall x | x in ns :: x in Union(cs)
    decreases |ns|
  {
    if |ns| > 0 {
      var pre := ns[..|ns| - 1];
      var n := ns[|ns| - 1];
      assert ns == pre + [n];
      ComponentsOfPartition(g, pre);
      var cs := ComponentsOf(g, pre);
      if n !in Union(cs) {
        AddComponent(g, cs, n);
        var cs' := cs + [UReachFrom(g, {n})];
        assert cs'[..|cs'| - 1] == cs;
        assert Union(cs') == Union(cs) + UReachFrom(g, {n});
      }
    }
  }

  lemma {:induction false} UnionWithin(g: Graph, cs: seq<set<string>>)
    requires Valid(g) && forall i | 0 <= i < |cs| :: IsComponent(g, cs[i])
    ensures Union(cs) <= NodeSet(g)
  {
    if |cs| > 0 {
      UnionWithin(g, cs[..|cs| - 1]);
      assert IsComponent(g, cs[|cs| - 1]);
    }
  }

  /** The closure is the least `UPost`-closed superset. */
  lemma {:induction false} ReachWithin(g: Graph, r: set<string>, c: set<string>)
    requires Valid(g) && r <= c <= NodeSet(g) && UPost(g, c) <= c
    ensures UReachFrom(g, r) <= c
    decreases |NodeSet(g) - r|
  {
    var r' := r + UPost(g, r);
    if !(r' <= r) {
      assert NodeSet(g) - r' < NodeSet(g) - r;
      StrictSubsetCard(NodeSet(g) - r', NodeSet(g) - r);
      ReachWithin(g, r', c);
    }
  }

  /** The weak components partition the nodes: each is a component, no two
      meet, and together they cover every node. */
  lemma WeakComponentsPartition(g: Graph)
    requires Valid(g)
    ensures IsComponentList(g, WeakComponents(g), NodeSet(g))
  {
    ComponentsOfPartition(g, g.nodes);
    UnionWithin(g, WeakComponents(g));
  }

  // ---------------------------------------------------------------- topological order

  function IndexOf(s: seq<string>, x: string): (i: nat)
    requires x in s
    ensures i < |s| && s[i] == x
    ensures forall j | 0 <= j < i :: s[j] != x
  {
    if s[0] == x then 0 else 1 + IndexOf(s[1..], x)
  }

  /** `order` lists every node once and puts the source of each edge before
      its target. */
  ghost predicate IsTopoOrder(g: Graph, order: seq<string>) {
    Distinct(order) && (forall n :: n in order <==> n in g.nodes)
    && forall e | e in g.edges ::
         e.src in order && e.dst in order && IndexOf(order, e.src) < IndexOf(order, e.dst)
  }

  /** `o` lists the nodes of `rest` once each, and orders every edge between
      two of them. */
  ghost predicate OrdersAmong(g: Graph, rest: seq<string>, o: seq<string>) {
    Distinct(o) && (forall n :: n in o <==> n in rest)
    && forall e | e in g.edges && e.src in rest && e.dst in rest ::
         IndexOf(o, e.src) < IndexOf(o, e.dst)
  }

  /** `v` has a predecessor among the nodes of `rest`. */
  ghost predicate HasPredAmong(g: Graph, rest: seq<string>, v: string) {
    exists u | u in rest :: Edge(u, v) in g.edges
  }

  /** A nonempty list of nodes each of which has a predecessor in the list:
      a graph that has one contains a cycle. */
  ghost predicate Stuck(g: Graph, w: seq<string>) {
    |w| > 0 && forall v {:trigger HasPredAmong(g, w, v)} | v in w :: HasPredAmong(g, w, v)
  }

  /** The first node of `rest`, from position `k` on, that has no
      predecessor inside `rest`. */
  function FirstFreeFrom(g: Graph, rest: seq<string>, k: nat): (r: Option<nat>)
    requires k <= |rest|
    ensures r.Some? ==> (k <= r.value < |rest| && !HasPredAmong(g, rest, rest[r.value]))
    ensures r.None? ==> forall j {:trigger HasPredAmong(g, rest, rest[j])} | k <= j < |rest| ::
                          HasPredAmong(g, rest, rest[j])
    decreases |rest| - k
  {
    if k == |rest| then None
    else if forall u | u in rest :: Edge(u, rest[k]) !in g.edges then Some(k)
    else FirstFreeFrom(g, rest, k + 1)
  }

  function RemoveAt(s: seq<string>, i: nat): (r: seq<string>)
    requires i < |s|
    ensures |r| == |s| - 1
  {
    s[..i] + s[i + 1..]
  }

  lemma RemoveAtFacts(s: seq<string>, i: nat)
    requires Distinct(s) && i < |s|
    ensures Distinct(RemoveAt(s, i))
    ensures forall n :: n in RemoveAt(s, i) <==> n in s && n != s[i]
  {
    var r := RemoveAt(s, i);
    assert forall j | 0 <= j < i :: r[j] == s[j];
    assert forall j | i < j < |s| :: r[j - 1] == s[j];
    forall a, b | 0 <= a < b < |r| ensures r[a] != r[b] {
      var a' := if a < i then a else a + 1;
      var b' := if b < i then b else b + 1;
      assert r[a] == s[a'] && r[b] == s[b'];
    }
    forall n ensures n in r <==> n in s && n != s[i] {
      if n in s && n != s[i] {
        var j :| 0 <= j < |s| && s[j] == n;
        if j < i { assert r[j] == n; } else { assert r[j - 1] == n; }
      }
      if n in r {
        var j :| 0 <= j < |r| && r[j] == n;
        if j < i { assert s[j] == n; } else { assert s[j + 1] == n; }
      }
    }
  }

  /** Kahn's procedure: repeatedly emit the first remaining node that has no
      remaining predecessor. `None` when the remaining nodes all have one,
      which is when the graph has a cycle (`NetworkXUnfeasible`). */
  function TopoFrom(g: Graph, rest: seq<string>): (r: Option<seq<string>>)
    decreases |rest|
  {
    match FirstFreeFrom(g, rest, 0)
    case None => if |rest| == 0 then Some([]) else None
    case Some(i) =>
      match TopoFrom(g, RemoveAt(rest, i))
      case None => None
      case Some(o) => Some([rest[i]] + o)
  }

  /** `list(nx.topological_sort(G))`. */
  function TopoSort(g: Graph): (r: Option<seq<string>>) {
    TopoFrom(g, g.nodes)
  }

  lemma IndexOfCons(x: string, s: seq<string>, y: string)
    requires y in s && y != x
    ensures IndexOf([x] + s, y) == 1 + IndexOf(s, y)
  {
    assert ([x] + s)[1..] == s;
  }

  /** Emitting a node with no predecessor among the remaining ones before an
      order of the others gives an order of all of them. */
  lemma PrependFree(g: Graph, rest: seq<string>, i: nat, o': seq<string>)
    requires Distinct(rest) && i < |rest| && !HasPredAmong(g, rest, rest[i])
    requires OrdersAmong(g, RemoveAt(rest, i), o')
    ensures OrdersAmong(g, rest, [rest[i]] + o')
  {
    RemoveAtFacts(rest, i);
    var x := rest[i];
    var o := [x] + o';
    assert x !in o';
    assert Distinct(o) by {
      forall a, b | 0 <= a < b < |o| ensures o[a] != o[b] {
        if a == 0 { assert o[b] in o'; } else { assert o[a] == o'[a - 1] && o[b] == o'[b - 1]; }
      }
    }
    forall e | e in g.edges && e.src in rest && e.dst in rest
      ensures IndexOf(o, e.src) < IndexOf(o, e.dst)
    {
      if e.dst == x {
        assert false;
      } else if e.src == x {
        assert e.dst in o';
        IndexOfCons(x, o', e.dst);
      } else {
        IndexOfCons(x, o', e.src);
        IndexOfCons(x, o', e.dst);
      }
    }
  }

  lemma {:induction false} TopoFromSound(g: Graph, rest: seq<string>)
    requires Distinct(rest)
    ensures TopoFrom(g, rest).Some? ==> OrdersAmong(g, rest, TopoFrom(g, rest).value)
    ensures TopoFrom(g, rest).None? ==>
              exists w | forall n | n in w :: n in rest :: Stuck(g, w)
    decreases |rest|
  {
    match FirstFreeFrom(g, rest, 0)
    case None =>
      if |rest| > 0 {
        forall v | v in rest ensures HasPredAmong(g, rest, v) {
          var j :| 0 <= j < |rest| && rest[j] == v;
          assert HasPredAmong(g, rest, rest[j]);
        }
        assert Stuck(g, rest);
      }
    case Some(i) =>
      var rest' := RemoveAt(rest, i);
      RemoveAtFacts(rest, i);
      TopoFromSound(g, rest');
      if TopoFrom(g, rest').Some? {
        PrependFree(g, rest, i, TopoFrom(g, rest').value);
      } else {
        var w :| (forall n | n in w :: n in rest') && Stuck(g, w);
        assert forall n | n in w :: n in rest;
      }
  }

  function FirstInSet(order: seq<string>, s: set<string>, k: nat): (i: nat)
    requires k <= |order| && exists j | k <= j < |order| :: order[j] in s
    ensures k <= i < |order| && order[i] in s
    ensures forall j | k <= j < i :: order[j] !in s
    decreases |order| - k
  {
    if order[k] in s then k else FirstInSet(order, s, k + 1)
  }

  /** The node of `w` that comes first in `order`. */
  lemma EarliestIn(order: seq<string>, w: seq<string>) returns (v: string)
    requires |w| > 0 && forall x | x in w :: x in order
    ensures v in w && forall x | x in w :: IndexOf(order, v) <= IndexOf(order, x)
  {
    var s := set x | x in w;
    assert w[0] in s;
    var k0 := IndexOf(order, w[0]);
    var i := FirstInSet(order, s, 0);
    v := order[i];
    forall x | x in w ensures IndexOf(order, v) <= IndexOf(order, x) {
      var k := IndexOf(order, x);
      assert order[k] in s;
      assert IndexOf(order, v) <= i;
    }
  }

  /** However a graph with a `Stuck` list of nodes is ordered, some edge
      of it points backwards. */
  lemma StuckHasBackEdge(g: Graph, w: seq<string>, order: seq<string>)
    requires Stuck(g, w) && forall n | n in w :: n in order
    ensures exists e | e in g.edges ::
              e.src in order && e.dst in order && IndexOf(order, e.dst) <= IndexOf(order, e.src)
  {
    var v := EarliestIn(order, w);
    assert HasPredAmong(g, w, v);
    var u :| u in w && Edge(u, v) in g.edges;
    assert IndexOf(order, v) <= IndexOf(order, u);
  }

  /** `TopoSort` returns a topological order when one exists, and `None`
      exactly when none does. */
  lemma TopoSortCorrect(g: Graph)
    requires Valid(g)
    ensures TopoSort(g).Some? ==> IsTopoOrder(g, TopoSort(g).value)
    ensures TopoSort(g).None? ==> forall order :: !IsTopoOrder(g, order)
  {
    TopoFromSound(g, g.nodes);
    if TopoSort(g).None? {
      var w :| (forall n | n in w :: n in g.nodes) && Stuck(g, w);
      forall order | forall n :: n in order <==> n in g.nodes
        ensures !IsTopoOrder(g, order)
      {
        StuckHasBackEdge(g, w, order);
      }
    }
  }

  // ---------------------------------------------------------------- strong components

  /** The strongly connected component of `n`: the nodes reachable from it
      from which it is also reachable. */
  function SccOf(g: Graph, n: string): (r: set<string>)
    requires Valid(g) && n in g.nodes
  {
    set m | m in ReachFrom(g, {n}) && HasPath(g, m, n)
  }

  lemma SccOfIff(g: Graph, n: string, m: string)
    requires Valid(g) && n in g.nodes
    ensures m in SccOf(g, n) <==> Path(g, n, m) && Path(g, m, n)
  {
    HasPathIff(g, n, m);
    if m in g.nodes {
      HasPathIff(g, m, n);
    }
  }

  /** Paths compose: a walk from `u` to `x` and one from `x` to `v` give one
      from `u` to `v`. */
  lemma PathTrans(g: Graph, u: string, x: string, v: string)
    requires Valid(g) && u in g.nodes && x in g.nodes
    requires Path(g, u, x) && Path(g, x, v)
    ensures Path(g, u, v)
  {
    HasPathIff(g, u, x);
    HasPathIff(g, x, v);
    ReachLeast(g, {x}, ReachFrom(g, {u}));
    HasPathIff(g, u, v);
  }

  /** Two strong components that share a node are the same component, so a
      node outside one component's set is outside every component meeting it. */
  lemma SccMeet(g: Graph, a: string, n: string)
    requires Valid(g) && a in g.nodes && n in g.nodes
    requires SccOf(g, a) * SccOf(g, n) != {}
    ensures n in SccOf(g, a)
  {
    var x :| x in SccOf(g, a) * SccOf(g, n);
    SccOfIff(g, a, x);
    SccOfIff(g, n, x);
    SccOfIff(g, a, n);
    PathTrans(g, a, x, n);
    PathTrans(g, n, x, a);
  }

  /** The strong component of every node. */
  function SccMap(g: Graph): (m: map<string, set<string>>)
    requires Valid(g)
    ensures forall n | n in g.nodes :: n in m && m[n] == SccOf(g, n)
  {
    map n | n in NodeSet(g) :: SccOf(g, n)
  }

  /** A map from nodes to classes of an equivalence: each node is in its own
      class, and two classes that meet coincide. */
  ghost predicate ClassLike(cls: map<string, set<string>>) {
    (forall n | n in cls :: n in cls[n])
    && forall a, b | a in cls && b in cls && cls[a] * cls[b] != {} :: b in cls[a]
  }

  lemma SccClassLike(g: Graph)
    requires Valid(g)
    ensures ClassLike(SccMap(g))
  {
    var m := SccMap(g);
    forall n | n in m ensures n in m[n] {
      assert n in g.nodes;
    }
    forall a, b | a in m && b in m && m[a] * m[b] != {} ensures b in m[a] {
      assert a in g.nodes && b in g.nodes;
      SccMeet(g, a, b);
    }
  }

  /** The classes of the taken nodes. */
  function Classes(cls: map<string, set<string>>, rs: seq<string>): (cs: seq<set<string>>)
    requires forall r | r in rs :: r in cls
    ensures |cs| == |rs| && forall i | 0 <= i < |rs| :: cs[i] == cls[rs[i]]
  {
    if |rs| == 0 then []
    else Classes(cls, rs[..|rs| - 1]) + [cls[rs[|rs| - 1]]]
  }

  /** One node per class, in the order of each class's first node in `ns`:
      a node is taken when no earlier taken node's class holds it. */
  function Reps(cls: map<string, set<string>>, ns: seq<string>): (rs: seq<string>)
    requires forall n | n in ns :: n in cls
    ensures forall r | r in rs :: r in ns
    decreases |ns|
  {
    if |ns| == 0 then []
    else
      var rs := Reps(cls, ns[..|ns| - 1]);
      var n := ns[|ns| - 1];
      if n in Union(Classes(cls, rs)) then rs
      else rs + [n]
  }

  /** The taken nodes' classes cover every node of `ns`, and no two of them
      meet. */
  lemma {:induction false} RepsPartition(cls: map<string, set<string>>, ns: seq<string>)
    requires ClassLike(cls) && forall n | n in ns :: n in cls
    ensures var cs := Classes(cls, Reps(cls, ns));
      (forall n | n in ns :: n in Union(cs)) && Disjoint(cs)
    decreases |ns|
  {
    if |ns| > 0 {
      RepsPartition(cls, ns[..|ns| - 1]);
      RepsStep(cls, ns);
    }
  }

  lemma RepsStep(cls: map<string, set<string>>, ns: seq<string>)
    requires ClassLike(cls) && |ns| > 0 && forall m | m in ns :: m in cls
    requires var cs := Classes(cls, Reps(cls, ns[..|ns| - 1]));
      (forall m | m in ns[..|ns| - 1] :: m in Union(cs)) && Disjoint(cs)
    ensures var cs := Classes(cls, Reps(cls, ns));
      (forall m | m in ns :: m in Union(cs)) && Disjoint(cs)
  {
    Seqs.SplitLast(ns);
    if ns[|ns| - 1] in Union(Classes(cls, Reps(cls, ns[..|ns| - 1]))) {
      RepsKeep(cls, ns);
    } else {
      RepsTake(cls, ns);
    }
  }

  /** A node an earlier class holds is not taken. */
  lemma RepsKeep(cls: map<string, set<string>>, ns: seq<string>)
    requires |ns| > 0 && forall m | m in ns :: m in cls
    requires ns == ns[..|ns| - 1] + [ns[|ns| - 1]]
    requires var cs := Classes(cls, Reps(cls, ns[..|ns| - 1]));
      (forall m | m in ns[..|ns| - 1] :: m in Union(cs)) && Disjoint(cs) && ns[|ns| - 1] in Union(cs)
    ensures var cs := Classes(cls, Reps(cls, ns));
      (forall m | m in ns :: m in Union(cs)) && Disjoint(cs)
  {
    assert Reps(cls, ns) == Reps(cls, ns[..|ns| - 1]);
  }

  /** A node no earlier class holds is taken. */
  lemma RepsTake(cls: map<string, set<string>>, ns: seq<string>)
    requires ClassLike(cls) && |ns| > 0 && forall m | m in ns :: m in cls
    requires ns == ns[..|ns| - 1] + [ns[|ns| - 1]]
    requires var cs := Classes(cls, Reps(cls, ns[..|ns| - 1]));
      (forall m | m in ns[..|ns| - 1] :: m in Union(cs)) && Disjoint(cs) && ns[|ns| - 1] !in Union(cs)
    ensures var cs := Classes(cls, Reps(cls, ns));
      (forall m | m in ns :: m in Union(cs)) && Disjoint(cs)
  {
    var rs := Reps(cls, ns[..|ns| - 1]);
    var n := ns[|ns| - 1];
    assert Reps(cls, ns) == rs + [n];
    RepsAppend(cls, rs, n);
    assert n in cls[n];
  }

  /** Taking a node no earlier class holds adds its class, which meets none
      of them. */
  lemma RepsAppend(cls: map<string, set<string>>, rs: seq<string>, n: string)
    requires ClassLike(cls) && n in cls && forall r | r in rs :: r in cls
    requires Disjoint(Classes(cls, rs)) && n !in Union(Classes(cls, rs))
    ensures Classes(cls, rs + [n]) == Classes(cls, rs) + [cls[n]]
    ensures Union(Classes(cls, rs + [n])) == Union(Classes(cls, rs)) + cls[n]
    ensures Disjoint(Classes(cls, rs + [n]))
  {
    var cs := Classes(cls, rs);
    ClassesAppend(cls, rs, n);
    forall i | 0 <= i < |cs| ensures cs[i] * cls[n] == {} {
      if cs[i] * cls[n] != {} {
        assert n in cls[rs[i]];
        UnionIff(cs, n);
      }
    }
    AppendDisjoint(cs, cls[n]);
  }

  lemma ClassesAppend(cls: map<string, set<string>>, rs: seq<string>, n: string)
    requires n in cls && forall r | r in rs :: r in cls
    ensures Classes(cls, rs + [n]) == Classes(cls, rs) + [cls[n]]
    ensures Union(Classes(cls, rs + [n])) == Union(Classes(cls, rs)) + cls[n]
  {
    assert (rs + [n])[..|rs|] == rs;
    var cs' := Classes(cls, rs) + [cls[n]];
    assert cs'[..|rs|] == Classes(cls, rs);
  }

  /** The classes of the taken nodes are distinct, every node of `ns` is in
      one of them, and no two of them meet. */
  lemma ClassesFacts(cls: map<string, set<string>>, ns: seq<string>)
    requires ClassLike(cls) && forall n | n in ns :: n in cls
    ensures var cs := Classes(cls, Reps(cls, ns));
      (forall n | n in ns :: exists i | 0 <= i < |cs| :: n in cs[i])
      && Disjoint(cs) && Distinct(cs)
  {
    RepsPartition(cls, ns);
    var rs := Reps(cls, ns);
    var cs := Classes(cls, rs);
    forall n | n in ns ensures exists i | 0 <= i < |cs| :: n in cs[i] {
      UnionIff(cs, n);
    }
    forall i, j | 0 <= i < j < |cs| ensures cs[i] != cs[j] {
      ClassHolds(cls, ns, rs, cs, i);
      NotInOther(cs[i], cs[j], rs[i]);
    }
  }

  lemma NotInOther(a: set<string>, b: set<string>, x: string)
    requires x in a && a * b == {}
    ensures x !in b && a != b
  {
    assert x !in a * b;
  }

  lemma ClassHolds(cls: map<string, set<string>>, ns: seq<string>, rs: seq<string>, cs: seq<set<string>>, i: nat)
    requires ClassLike(cls) && forall n | n in ns :: n in cls
    requires rs == Reps(cls, ns) && cs == Classes(cls, rs) && i < |cs|
    ensures rs[i] in cs[i]
  {
    assert rs[i] in ns;
  }

  /** `nx.strongly_connected_components(G)`, listed here in the order of each
      component's first node: every node lies in exactly one listed set, and
      each listed set is a node's strong component, listed once. */
  function Sccs(g: Graph): (cs: seq<set<string>>)
    requires Valid(g)
    ensures forall i | 0 <= i < |cs| :: exists n | n in g.nodes :: cs[i] == SccOf(g, n)
    ensures forall n | n in g.nodes :: exists i | 0 <= i < |cs| :: n in cs[i]
    ensures Disjoint(cs)
    ensures Distinct(cs)
  {
    var cls := SccMap(g);
    SccClassLike(g);
    ClassesFacts(cls, g.nodes);
    SccsAreComponents(g);
    Classes(cls, Reps(cls, g.nodes))
  }

  lemma SccsAreComponents(g: Graph)
    requires Valid(g)
    ensures var cs := Classes(SccMap(g), Reps(SccMap(g), g.nodes));
      forall i | 0 <= i < |cs| :: exists n | n in g.nodes :: cs[i] == SccOf(g, n)
  {
    var cls := SccMap(g);
    var rs := Reps(cls, g.nodes);
    var cs := Classes(cls, rs);
    forall i | 0 <= i < |cs| ensures exists n | n in g.nodes :: cs[i] == SccOf(g, n) {
      assert rs[i] in g.nodes && cs[i] == SccOf(g, rs[i]);
    }
  }
}
