/** The `InformaticaMappingExtractor` of XMLify/logical/logic_conn_csv_export.py:
    the older exporter that turns every mapping of a workflow export into one
    record per connector, carrying the order of the connector's target
    instance (breadth-first levels of the instance graph) and the logic text
    of its target or source transformation; plus the summary and the filters
    over the records it holds. */
module LogicConn {
  import opened Wrappers
  import opened Text
  import opened Json
  import opened Seqs
  import opened Digraph
  import opened Levels
  import opened Ordering
  import opened Logic
  import opened NewStyle

  /** An instance name that is neither a string nor unhashable (a number,
      a boolean): the source would use it as a graph node as it is, which
      this model does not follow. */
  const NonStringInstance := "instance name is not a string"
  const UnknownMapping := "Unknown Mapping"

  /** A connector record; the instance and field values are kept as the
      export holds them. */
  datatype ConnRecord = ConnRecord(
    mappingNumber: nat, mappingName: string,
    fromField: Value, fromInstance: Value, fromInstanceType: Value,
    toField: Value, toInstance: Value, toInstanceType: Value,
    transformationOrder: nat, transformationLogic: string)

  type Caches = map<string, map<string, LogicEntry>>

  // ---------------------------------------------------------------- names and logic

  /** `_get_mapping_name`. */
  function MappingName(m: Value): (r: string)
    ensures (forall k | k in NameKeys :: !Has(m, k)) ==> r == UnknownMapping
  {
    FirstKeyText(m, NameKeys, UnknownMapping)
  }

  /** The entry stored for one transformation, with this extractor's logic
      (no Source Qualifier branch). */
  function ConnEntryOf(t: Value): (r: Result<LogicEntry, string>)
    ensures r.Ok? ==> r.value.ttype == TransformationType(t) && |r.value.logic| > 0
    ensures r.Ok? <==> LogicParts(t, KindOf(TransformationType(t), false)).Ok?
  {
    match ExtractLogic(t, TransformationType(t), false)
    case Err(e) => Err(e)
    case Ok(l) =>
      ExtractLogicNonEmpty(t, TransformationType(t), false);
      Ok(LogicEntry(TransformationType(t), l))
  }

  /** `_extract_transformation_logic` for one mapping: every transformation
      stored under its name, a later one replacing an earlier one. */
  function ConnLogicCache(md: Value): (r: Result<map<string, LogicEntry>, string>)
    requires md.Dict?
  {
    match TransformationsOf(md)
    case Err(e) => Err(e)
    case Ok(ts) => KeyedAll(ts, TransformationName, ConnEntryOf)
  }

  /** The cache holds an entry for exactly the names of the mapping's
      transformations, each the entry of the last transformation of that
      name. */
  lemma ConnLogicCacheSpec(md: Value)
    requires md.Dict? && ConnLogicCache(md).Ok?
    ensures var ts := TransformationsOf(md).value;
      var cache := ConnLogicCache(md).value;
      (forall n :: n in cache <==> exists i | 0 <= i < |ts| :: TransformationName(ts[i]) == n)
      && forall n | n in cache :: exists i | 0 <= i < |ts| ::
           TransformationName(ts[i]) == n && cache[n] == ConnEntryOf(ts[i]).value
           && forall j | i < j < |ts| :: TransformationName(ts[j]) != n
  {
    var ts := TransformationsOf(md).value;
    KeyedAllDomain(ts, TransformationName, ConnEntryOf);
    KeyedAllValues(ts, TransformationName, ConnEntryOf);
  }

  /** `_extract_connectors_from_mapping`. */
  function ConnectorsOf(md: Value): (cs: seq<Value>)
    requires md.Dict?
  {
    AsList(GetOr(md, "CONNECTOR", List([])))
  }

  // ---------------------------------------------------------------- the instance graph

  /** The edge one connector contributes to the graph of
      `_calculate_transformation_order`: none unless both of its instance
      names are truthy. A connector that is not a dict raises, and so does an
      unhashable name. */
  function ConnEnd(c: Value): (r: Result<Option<Edge>, string>)
  {
    match PyGet2(c, "@FROMINSTANCE", "FROMINSTANCE")
    case Err(e) => Err(e)
    case Ok(from) =>
      var to := PyGet2(c, "@TOINSTANCE", "TOINSTANCE").value;
      if !(Truthy(from) && Truthy(to)) then Ok(None)
      else if from.List? || from.Dict? || to.List? || to.Dict? then Err(Unhashable)
      else if from.Str? && to.Str? then Ok(Some(Edge(from.s, to.s)))
      else Err(NonStringInstance)
  }

  /** A connector contributes an edge exactly when it is a dict whose two
      instance names are non-empty strings, and the edge joins those names. */
  lemma ConnEndSpec(c: Value)
    ensures ConnEnd(c).Err? <==> (!c.Dict? ||
      (Truthy(PyGet2(c, "@FROMINSTANCE", "FROMINSTANCE").value) && Truthy(PyGet2(c, "@TOINSTANCE", "TOINSTANCE").value)
       && !(PyGet2(c, "@FROMINSTANCE", "FROMINSTANCE").value.Str? && PyGet2(c, "@TOINSTANCE", "TOINSTANCE").value.Str?)))
    ensures ConnEnd(c).Ok? && ConnEnd(c).value.Some? ==>
      var e := ConnEnd(c).value.value;
      c.Dict? && Str(e.src) == PyGet2(c, "@FROMINSTANCE", "FROMINSTANCE").value
      && Str(e.dst) == PyGet2(c, "@TOINSTANCE", "TOINSTANCE").value
      && |e.src| > 0 && |e.dst| > 0
  {
  }

  /** The `edges` list of the connector loop; the first raise ends it. */
  function ConnEdges(cs: seq<Value>): (r: Result<seq<Edge>, string>) {
    CollectSome(cs, ConnEnd)
  }

  /** The loop succeeds exactly when no connector raises, and then its
      edges are exactly those the connectors contribute. */
  lemma ConnEdgesSpec(cs: seq<Value>)
    ensures ConnEdges(cs).Ok? <==> forall i | 0 <= i < |cs| :: ConnEnd(cs[i]).Ok?
    ensures ConnEdges(cs).Ok? ==>
      forall e :: e in ConnEdges(cs).value <==> exists i | 0 <= i < |cs| :: ConnEnd(cs[i]) == Ok(Some(e))
  {
    CollectSomeSpec(cs, ConnEnd);
  }

  /** `G.add_nodes_from(all_instances)` then `G.add_edges_from(edges)`: the
      instances are exactly the endpoints of the edges, so the node set and
      the edge set are those of the edges added one by one. The source adds
      the nodes in the iteration order of a Python set; the model fixes the
      order in which they first occur as endpoints, and the components and
      the breadth-first levelling below follow that order. */
  function ConnGraph(es: seq<Edge>): (g: Graph)
    ensures Valid(g)
    ensures forall n :: n in g.nodes <==> n in Ends(es)
    ensures forall e :: e in g.edges <==> e in es
  {
    AddEdges(Empty(), es)
  }

  /** Only connectors whose two instance names are non-empty strings make
      edges, and a node is an endpoint of such an edge. */
  lemma ConnGraphShape(cs: seq<Value>)
    requires ConnEdges(cs).Ok?
    ensures var g := ConnGraph(ConnEdges(cs).value);
      (forall e :: e in g.edges <==> exists i | 0 <= i < |cs| :: ConnEnd(cs[i]) == Ok(Some(e)))
      && (forall e | e in g.edges :: NamedEdge(e))
      && forall n | n in g.nodes :: |n| > 0
  {
    var es := ConnEdges(cs).value;
    ConnEdgesSpec(cs);
    forall c | c in cs && ConnEnd(c).Ok? && ConnEnd(c).value.Some? ensures NamedEdge(ConnEnd(c).value.value) {
      ConnEndSpec(c);
    }
    CollectSomeKeeps(cs, ConnEnd, NamedEdge);
    ConnGraphNamed(es);
  }

  lemma {:induction false} ConnGraphNamed(es: seq<Edge>)
    requires forall e | e in es :: NamedEdge(e)
    ensures forall n | n in Ends(es) :: |n| > 0
  {
    if |es| > 0 {
      var pre := es[..|es| - 1];
      var e := es[|es| - 1];
      assert es == pre + [e];
      assert NamedEdge(e);
      ConnGraphNamed(pre);
      assert Ends(es) == Ends(pre) + {e.src, e.dst};
    }
  }

  predicate NamedEdge(e: Edge) {
    |e.src| > 0 && |e.dst| > 0
  }

  // ---------------------------------------------------------------- orders

  /** One iteration of the component loop: the node of a one-node component
      gets order 0; in a larger one every node the breadth-first levelling
      reaches from the sources gets its level plus one. */
  function ConnComponentOrders(g: Graph, c: set<string>): (o: map<string, nat>)
    requires Valid(g) && c <= NodeSet(g) && c != {}
    ensures o.Keys <= c
  {
    var sub := Subgraph(g, c);
    SubgraphNonEmpty(g, c);
    if |c| == 1 then map[sub.nodes[0] := 0]
    else
      SourcesSpec(sub);
      BfsReach(sub, Sources(sub));
      var lv := Bfs(sub, Sources(sub));
      map n | n in lv :: lv[n] + 1
  }

  /** The orders of each component, in the order of the components. */
  function ComponentOrderParts(g: Graph, cs: seq<set<string>>): (parts: seq<map<string, nat>>)
    requires Valid(g) && forall c | c in cs :: c <= NodeSet(g) && c != {}
    ensures |parts| == |cs|
    ensures forall i | 0 <= i < |cs| :: parts[i].Keys <= cs[i]
  {
    seq(|cs|, i requires 0 <= i < |cs| => assert cs[i] in cs; ConnComponentOrders(g, cs[i]))
  }

  /** Maps written one over another, a later one winning. */
  function MergeMaps(parts: seq<map<string, nat>>): (r: map<string, nat>)
    ensures forall n | n in r :: exists j | 0 <= j < |parts| :: n in parts[j]
  {
    if |parts| == 0 then map[]
    else
      var pre := parts[..|parts| - 1];
      assert forall j | 0 <= j < |pre| :: pre[j] == parts[j];
      MergeMaps(pre) + parts[|parts| - 1]
  }

  lemma MergeMapsPrefix(parts: seq<map<string, nat>>, i: nat)
    requires i < |parts|
    ensures MergeMaps(parts[..i + 1]) == MergeMaps(parts[..i]) + parts[i]
  {
    assert parts[..i + 1][..i] == parts[..i];
  }

  /** When every map stays within its own set of a disjoint family, a key
      of the merge has the value its own map gives it. */
  lemma {:induction false} MergeMapsAt(parts: seq<map<string, nat>>, cs: seq<set<string>>, j: nat, n: string)
    requires |parts| == |cs| && Disjoint(cs) && forall k | 0 <= k < |cs| :: parts[k].Keys <= cs[k]
    requires j < |cs| && n in cs[j]
    ensures n in MergeMaps(parts) <==> n in parts[j]
    ensures n in parts[j] ==> MergeMaps(parts)[n] == parts[j][n]
  {
    var last := |parts| - 1;
    var pre := parts[..last];
    var cpre := cs[..last];
    assert MergeMaps(parts) == MergeMaps(pre) + parts[last];
    if j < last {
      assert n !in parts[last] by {
        assert cs[j] * cs[last] == {};
        assert n !in cs[j] * cs[last];
        assert parts[last].Keys <= cs[last];
      }
      assert Disjoint(cpre) by {
        forall a, b | 0 <= a < b < |cpre| ensures cpre[a] * cpre[b] == {} {
          assert cs[a] * cs[b] == {};
        }
      }
      assert forall k | 0 <= k < |cpre| :: pre[k].Keys <= cpre[k] by {
        forall k | 0 <= k < |cpre| ensures pre[k].Keys <= cpre[k] {
          assert pre[k] == parts[k] && cpre[k] == cs[k];
        }
      }
      MergeMapsAt(pre, cpre, j, n);
    } else {
      assert n !in MergeMaps(pre) by {
        forall k | 0 <= k < |pre| ensures n !in pre[k] {
          assert cs[k] * cs[j] == {};
          assert n !in cs[k] * cs[j];
          assert pre[k].Keys <= cs[k];
        }
      }
    }
  }

  /** The orders of the whole graph, component by component. */
  function ConnOrders(g: Graph): (r: map<string, nat>)
    requires Valid(g)
  {
    ComponentsWithin(g);
    MergeMaps(ComponentOrderParts(g, WeakComponents(g)))
  }

  /** The orders of the graph: the node of a one-node component gets 0; in
      a larger component exactly the nodes reachable from its sources get
      one, their breadth-first level plus one, so at least 1, and with a
      source nothing points to at exactly 1. */
  lemma ConnOrdersAt(g: Graph, i: nat, n: string)
    requires Valid(g) && i < |WeakComponents(g)| && n in WeakComponents(g)[i]
    ensures var o := ConnOrders(g);
      var c := WeakComponents(g)[i];
      var sub := Subgraph(g, c);
      (|c| == 1 ==> n in o && o[n] == 0)
      && (|c| > 1 ==>
            (SourcesSpec(sub);
             (n in o <==> n in ReachFrom(sub, set s | s in Sources(sub)))
             && (n in o ==> n in Bfs(sub, Sources(sub)) && o[n] == Bfs(sub, Sources(sub))[n] + 1 && o[n] >= 1)
             && (n in Sources(sub) && InDegree(sub, n) == 0 ==> n in o && o[n] == 1)))
  {
    var cs := WeakComponents(g);
    ComponentsWithin(g);
    WeakComponentsPartition(g);
    var parts := ComponentOrderParts(g, cs);
    MergeMapsAt(parts, cs, i, n);
    var c := cs[i];
    assert c in cs;
    assert parts[i] == ConnComponentOrders(g, c);
    var sub := Subgraph(g, c);
    SubgraphNonEmpty(g, c);
    if |c| == 1 {
      Singleton(c, sub.nodes[0]);
    } else {
      SourcesSpec(sub);
      BfsReach(sub, Sources(sub));
      if n in Sources(sub) && InDegree(sub, n) == 0 {
        BfsSourcesAtZero(sub, Sources(sub), n);
      }
    }
  }

  /** Only nodes of the graph get an order. */
  lemma ConnOrdersKeys(g: Graph)
    requires Valid(g)
    ensures ConnOrders(g).Keys <= NodeSet(g)
  {
    ComponentsWithin(g);
    var cs := WeakComponents(g);
    var parts := ComponentOrderParts(g, cs);
    forall n | n in ConnOrders(g) ensures n in NodeSet(g) {
      var j :| 0 <= j < |parts| && n in parts[j];
      assert cs[j] in cs;
    }
  }

  /** The "unconnected" fill: every name without an order gets order 0. */
  function FillZero(orders: map<string, nat>, names: set<string>): (r: map<string, nat>)
    ensures r.Keys == orders.Keys + names
    ensures forall n | n in orders :: r[n] == orders[n]
    ensures forall n | n in names && n !in orders :: r[n] == 0
  {
    orders + map n | n in names && n !in orders :: 0
  }

  /** `transformation_orders.get(x, 0)` cannot tell the fill happened: it
      adds only zeros, which is what the lookup gives a missing name. */
  lemma FillZeroUnseen(orders: map<string, nat>, names: set<string>, x: string)
    ensures Get0(FillZero(orders, names), x) == Get0(orders, x)
  {
  }

  /** `_calculate_transformation_order`: the graph of the connectors, the
      orders of its components, then the fill from the names the logic
      cache holds for the mapping, when it holds any. */
  function ConnTransformationOrder(cs: seq<Value>, cacheNames: Option<set<string>>): (r: Result<map<string, nat>, string>) {
    match ConnEdges(cs)
    case Err(e) => Err(e)
    case Ok(es) =>
      var o := ConnOrders(ConnGraph(es));
      Ok(match cacheNames case None => o case Some(names) => FillZero(o, names))
  }

  /** The orders of the graph of some connectors, before any fill. */
  function GraphOrders(cs: seq<Value>): (r: map<string, nat>)
    requires ConnEdges(cs).Ok?
  {
    ConnOrders(ConnGraph(ConnEdges(cs).value))
  }

  /** The orders are those of the graph's nodes plus the cache names, every
      cache name that is no ordered node holding 0. */
  lemma ConnTransformationOrderKeys(cs: seq<Value>, names: set<string>)
    requires ConnEdges(cs).Ok?
    ensures var g := ConnGraph(ConnEdges(cs).value);
      var o := GraphOrders(cs);
      var r := ConnTransformationOrder(cs, Some(names));
      r.Ok? && r.value.Keys <= NodeSet(g) + names
      && (forall n | n in names && n !in o :: n in r.value && r.value[n] == 0)
      && forall n | n in o :: n in r.value && r.value[n] == o[n]
  {
    var o := GraphOrders(cs);
    assert ConnTransformationOrder(cs, Some(names)) == Ok(FillZero(o, names));
    ConnOrdersKeys(ConnGraph(ConnEdges(cs).value));
  }

  // ---------------------------------------------------------------- one connector

  /** `_process_connector_with_lineage`; `None` where its handler catches
      an exception: a connector that is not a dict, a target name that
      cannot be looked up, a source name that cannot be looked up when the
      target has no logic. */
  function ProcessConn(c: Value, number: nat, name: string, orders: map<string, nat>, caches: Caches): (r: Option<ConnRecord>) {
    if !c.Dict? then None
    else
      var fromField := ConnField(c, "@FROMFIELD", "FROMFIELD");
      var fromInstance := ConnField(c, "@FROMINSTANCE", "FROMINSTANCE");
      var fromType := ConnField(c, "@FROMINSTANCETYPE", "FROMINSTANCETYPE");
      var toField := ConnField(c, "@TOFIELD", "TOFIELD");
      var toInstance := ConnField(c, "@TOINSTANCE", "TOINSTANCE");
      var toType := ConnField(c, "@TOINSTANCETYPE", "TOINSTANCETYPE");
      if toInstance.List? || toInstance.Dict? then None
      else
        var order := if toInstance.Str? && toInstance.s in orders then orders[toInstance.s] else 0;
        match ConnectorLogic(caches, name, fromInstance, toInstance)
        case Err(_) => None
        case Ok(logic) =>
          Some(ConnRecord(number, name, fromField, fromInstance, fromType, toField, toInstance, toType, order, logic))
  }

  /** A record carries its connector's fields, the order of its target name
      (0 when it has none) and the logic of the target, else of the source,
      else none; a dict connector is dropped exactly when a name it looks up
      is unhashable. */
  lemma ProcessConnSpec(c: Value, number: nat, name: string, orders: map<string, nat>, caches: Caches)
    requires c.Dict? && name in caches
    ensures var to := ConnField(c, "@TOINSTANCE", "TOINSTANCE");
      var from := ConnField(c, "@FROMINSTANCE", "FROMINSTANCE");
      var cache := caches[name];
      var r := ProcessConn(c, number, name, orders, caches);
      (r.None? <==> to.List? || to.Dict? || (!(to.Str? && to.s in cache) && (from.List? || from.Dict?)))
      && (r.Some? ==>
            r.value.mappingNumber == number && r.value.mappingName == name
            && r.value.toInstance == to && r.value.fromInstance == from
            && r.value.transformationOrder == (if to.Str? && to.s in orders then orders[to.s] else 0)
            && (to.Str? && to.s in cache ==> r.value.transformationLogic == cache[to.s].logic)
            && (!(to.Str? && to.s in cache) && from.Str? && from.s in cache ==>
                  r.value.transformationLogic == cache[from.s].logic)
            && (!(to.Str? && to.s in cache) && !(from.Str? && from.s in cache) ==> r.value.transformationLogic == ""))
  {
  }

  function ConnProcessor(number: nat, name: string, orders: map<string, nat>, caches: Caches): (r: Value -> Option<ConnRecord>) {
    c => ProcessConn(c, number, name, orders, caches)
  }

  // ---------------------------------------------------------------- the workflow

  /** One mapping of the loop of `_process_workflow_data`: its logic is
      cached first, then the orders are computed (so the fill sees the
      cache), then every connector is processed. A mapping that is not a
      dict, a transformation or connector that raises, ends the run. */
  function RunMapping(m: Value, number: nat, caches: Caches): (r: Result<(seq<ConnRecord>, Caches), string>) {
    if !m.Dict? then Err(WrongShape)
    else
      var name := MappingName(m);
      match ConnLogicCache(m)
      case Err(e) => Err(e)
      case Ok(cache) =>
        var caches' := caches[name := cache];
        var cs := ConnectorsOf(m);
        match ConnTransformationOrder(cs, CacheNames(caches', name))
        case Err(e) => Err(e)
        case Ok(orders) => Ok((FilterSome(cs, ConnProcessor(number, name, orders, caches')), caches'))
  }

  /** The mappings in turn, numbered from 1. */
  function RunMappings(ms: seq<Value>, caches: Caches): (r: Result<(seq<ConnRecord>, Caches), string>) {
    if |ms| == 0 then Ok(([], caches))
    else
      match RunMappings(ms[..|ms| - 1], caches)
      case Err(e) => Err(e)
      case Ok(p) =>
        match RunMapping(ms[|ms| - 1], |ms|, p.1)
        case Err(e) => Err(e)
        case Ok(q) => Ok((p.0 + q.0, q.1))
  }

  lemma RunMappingsPrefix(ms: seq<Value>, k: nat, caches: Caches)
    requires k < |ms|
    ensures RunMappings(ms[..k + 1], caches) ==
      match RunMappings(ms[..k], caches)
      case Err(e) => Err(e)
      case Ok(p) => (match RunMapping(ms[k], k + 1, p.1) case Err(e) => Err(e) case Ok(q) => Ok((p.0 + q.0, q.1)))
  {
    assert ms[..k + 1][..k] == ms[..k];
  }

  /** Once a mapping raises, the whole run raises. */
  lemma {:induction false} RunMappingsErr(ms: seq<Value>, k: nat, caches: Caches)
    requires k <= |ms| && RunMappings(ms[..k], caches).Err?
    ensures RunMappings(ms, caches).Err?
    decreases |ms| - k
  {
    if k < |ms| {
      var pre := ms[..|ms| - 1];
      assert pre[..k] == ms[..k];
      RunMappingsErr(pre, k, caches);
    } else {
      assert ms[..k] == ms;
    }
  }

  /** `_process_workflow_data` from a given logic cache: no mappings give no
      records. */
  function RunWorkflow(workflow: Value, caches: Caches): (r: Result<(seq<ConnRecord>, Caches), string>) {
    var ms := ExtractMappings(workflow);
    if |ms| == 0 then Ok(([], caches)) else RunMappings(ms, caches)
  }

  /** The records of one mapping carry its number and name, one at most per
      connector; each record's order is its target's order in the graph, 0
      when it has none, so the fill never shows in a record. */
  lemma RunMappingRecords(m: Value, number: nat, caches: Caches)
    requires RunMapping(m, number, caches).Ok?
    ensures var recs := RunMapping(m, number, caches).value.0;
      m.Dict? && |recs| <= |ConnectorsOf(m)|
      && ConnEdges(ConnectorsOf(m)).Ok?
      && forall r | r in recs ::
           r.mappingNumber == number && r.mappingName == MappingName(m)
           && r.transformationOrder == (if r.toInstance.Str? then Get0(GraphOrders(ConnectorsOf(m)), r.toInstance.s) else 0)
  {
    var name := MappingName(m);
    var cache := ConnLogicCache(m).value;
    var caches' := caches[name := cache];
    var cs := ConnectorsOf(m);
    assert CacheNames(caches', name) == Some(cache.Keys);
    ConnEdgesSpec(cs);
    var o := GraphOrders(cs);
    assert RunMapping(m, number, caches).value.0 == FilterSome(cs, ConnProcessor(number, name, FillZero(o, cache.Keys), caches'));
    ProcessedRecords(cs, number, name, o, caches');
  }

  /** The records of one mapping carry its number and name, one at most
      per connector. */
  lemma RunMappingNamed(m: Value, number: nat, caches: Caches)
    requires RunMapping(m, number, caches).Ok?
    ensures var recs := RunMapping(m, number, caches).value.0;
      m.Dict? && |recs| <= |ConnectorsOf(m)|
      && forall r | r in recs :: r.mappingNumber == number && r.mappingName == MappingName(m)
  {
    RunMappingRecords(m, number, caches);
  }

  /** Every record of a connector loop carries the mapping's number and
      name, and the unfilled order of its target. */
  lemma ProcessedRecords(cs: seq<Value>, number: nat, name: string, o: map<string, nat>, caches: Caches)
    requires name in caches
    ensures forall r | r in FilterSome(cs, ConnProcessor(number, name, FillZero(o, caches[name].Keys), caches)) ::
      r.mappingNumber == number && r.mappingName == name
      && r.transformationOrder == (if r.toInstance.Str? then Get0(o, r.toInstance.s) else 0)
  {
    var orders := FillZero(o, caches[name].Keys);
    var f := ConnProcessor(number, name, orders, caches);
    forall r: ConnRecord | r in FilterSome(cs, f)
      ensures r.mappingNumber == number && r.mappingName == name
      ensures r.transformationOrder == (if r.toInstance.Str? then Get0(o, r.toInstance.s) else 0)
    {
      FilterSomeFrom(cs, f, r);
      var i :| 0 <= i < |cs| && f(cs[i]) == Some(r);
      ProcessConnSpec(cs[i], number, name, orders, caches);
      if r.toInstance.Str? {
        FillZeroUnseen(o, caches[name].Keys, r.toInstance.s);
      }
    }
  }

  /** Records come mapping by mapping: numbered from 1, never past the
      number of mappings, each named after its mapping, and in the order of
      the mappings. */
  lemma {:induction false} RunMappingsNumbered(ms: seq<Value>, caches: Caches)
    requires RunMappings(ms, caches).Ok?
    ensures Numbered(RunMappings(ms, caches).value.0, MappingNames(ms))
  {
    if |ms| > 0 {
      var pre := ms[..|ms| - 1];
      RunMappingsNumbered(pre, caches);
      var p := RunMappings(pre, caches).value;
      RunMappingNamed(ms[|ms| - 1], |ms|, p.1);
      var q := RunMapping(ms[|ms| - 1], |ms|, p.1).value;
      assert RunMappings(ms, caches).value.0 == p.0 + q.0;
      MappingNamesPrefix(ms);
      NumberedStep(MappingNames(ms), p.0, q.0);
    }
  }

  /** The names of the mappings, in order. */
  function MappingNames(ms: seq<Value>): (names: seq<string>)
    ensures |names| == |ms| && forall i | 0 <= i < |ms| :: names[i] == MappingName(ms[i])
  {
    seq(|ms|, i requires 0 <= i < |ms| => MappingName(ms[i]))
  }

  lemma MappingNamesPrefix(ms: seq<Value>)
    requires |ms| > 0
    ensures MappingNames(ms[..|ms| - 1]) == MappingNames(ms)[..|ms| - 1]
  {
  }

  /** Records numbered after the mappings they come from: from 1, never
      past the number of mappings, each named after its mapping, and in the
      order of the mappings. */
  predicate Numbered(recs: seq<ConnRecord>, names: seq<string>) {
    (forall r | r in recs :: 1 <= r.mappingNumber <= |names| && r.mappingName == names[r.mappingNumber - 1])
    && forall i, j | 0 <= i < j < |recs| :: recs[i].mappingNumber <= recs[j].mappingNumber
  }

  lemma NumberedStep(names: seq<string>, p0: seq<ConnRecord>, q0: seq<ConnRecord>)
    requires |names| > 0 && Numbered(p0, names[..|names| - 1])
    requires forall r | r in q0 :: r.mappingNumber == |names| && r.mappingName == names[|names| - 1]
    ensures Numbered(p0 + q0, names)
  {
    var recs := p0 + q0;
    forall i, j | 0 <= i < j < |recs|
      ensures recs[i].mappingNumber <= recs[j].mappingNumber
    {
      if j >= |p0| {
        assert recs[j] in q0;
        if i < |p0| {
          assert recs[i] in p0;
        } else {
          assert recs[i] in q0;
        }
      }
    }
  }

  // ---------------------------------------------------------------- the summary

  datatype LineageSummary = LineageSummary(
    totalTransformations: nat, maxOrder: nat, unconnectedCount: nat, orderDistribution: seq<(nat, nat)>)

  function OrdersOf(recs: seq<ConnRecord>): (os: seq<nat>)
    ensures |os| == |recs| && forall i | 0 <= i < |recs| :: os[i] == recs[i].transformationOrder
  {
    seq(|recs|, i requires 0 <= i < |recs| => recs[i].transformationOrder)
  }

  /** How many times `o` occurs. */
  function Count(os: seq<nat>, o: nat): (r: nat) {
    if |os| == 0 then 0
    else Count(os[..|os| - 1], o) + (if os[|os| - 1] == o then 1 else 0)
  }

  /** `max(os)`. */
  function MaxOf(os: seq<nat>): (m: nat)
    requires |os| > 0
    ensures forall o | o in os :: o <= m
    ensures m in os
  {
    if |os| == 1 then os[0]
    else
      var pre := os[..|os| - 1];
      assert os == pre + [os[|os| - 1]];
      var m := MaxOf(pre);
      if os[|os| - 1] > m then os[|os| - 1] else m
  }

  /** `order_groups[o].append(...)` on the group sizes, in the order the
      groups were first met. */
  function Bump(d: seq<(nat, nat)>, o: nat): (r: seq<(nat, nat)>)
    ensures |r| == |d| || r == d + [(o, 1)]
    decreases |d|
  {
    if |d| == 0 then [(o, 1)]
    else if d[0].0 == o then [(o, d[0].1 + 1)] + d[1..]
    else [d[0]] + Bump(d[1..], o)
  }

  /** The group sizes. */
  function Distribution(os: seq<nat>): (r: seq<(nat, nat)>) {
    if |os| == 0 then [] else Bump(Distribution(os[..|os| - 1]), os[|os| - 1])
  }

  function Total(d: seq<(nat, nat)>): (r: nat) {
    if |d| == 0 then 0 else d[0].1 + Total(d[1..])
  }

  /** The orders that have a group. */
  function OrderKeys(d: seq<(nat, nat)>): (r: set<nat>) {
    set i | 0 <= i < |d| :: d[i].0
  }

  predicate DistinctOrders(d: seq<(nat, nat)>) {
    forall i, j | 0 <= i < j < |d| :: d[i].0 != d[j].0
  }

  /** The size stored for `x`, 0 when there is none. */
  function SizeOf(d: seq<(nat, nat)>, x: nat): (r: nat) {
    if |d| == 0 then 0 else if d[0].0 == x then d[0].1 else SizeOf(d[1..], x)
  }

  /** The groups of a list are its first group and those of the rest. */
  lemma OrderKeysCons(d: seq<(nat, nat)>)
    requires |d| > 0
    ensures OrderKeys(d) == {d[0].0} + OrderKeys(d[1..])
    ensures DistinctOrders(d) <==> DistinctOrders(d[1..]) && d[0].0 !in OrderKeys(d[1..])
  {
    var rest := d[1..];
    assert forall i | 0 <= i < |rest| :: rest[i] == d[i + 1];
    forall x | x in OrderKeys(d) ensures x in {d[0].0} + OrderKeys(rest) {
      var i :| 0 <= i < |d| && d[i].0 == x;
      if i > 0 {
        assert rest[i - 1].0 == x;
      }
    }
    forall x | x in OrderKeys(rest) ensures x in OrderKeys(d) {
      var i :| 0 <= i < |rest| && rest[i].0 == x;
      assert d[i + 1].0 == x;
    }
    if DistinctOrders(rest) && d[0].0 !in OrderKeys(rest) {
      forall i, j | 0 <= i < j < |d| ensures d[i].0 != d[j].0 {
        if i == 0 {
          assert rest[j - 1].0 in OrderKeys(rest);
        }
      }
    }
  }

  /** One more element bumps the size of its group, or adds a group of one. */
  lemma BumpSpec(d: seq<(nat, nat)>, o: nat)
    ensures var r := Bump(d, o);
      (DistinctOrders(d) ==> DistinctOrders(r))
      && Total(r) == Total(d) + 1
      && OrderKeys(r) == OrderKeys(d) + {o}
      && forall x: nat :: SizeOf(r, x) == SizeOf(d, x) + (if x == o then 1 else 0)
  {
    BumpKeys(d, o);
    BumpTotal(d, o);
    BumpSizes(d, o);
  }

  lemma {:induction false} BumpKeys(d: seq<(nat, nat)>, o: nat)
    ensures OrderKeys(Bump(d, o)) == OrderKeys(d) + {o}
    ensures DistinctOrders(d) ==> DistinctOrders(Bump(d, o))
    decreases |d|
  {
    var r := Bump(d, o);
    if |d| == 0 {
      assert r[1..] == [];
      assert r[0].0 in OrderKeys(r);
    } else {
      OrderKeysCons(d);
      OrderKeysCons(r);
      if d[0].0 == o {
        assert r[1..] == d[1..];
      } else {
        BumpKeys(d[1..], o);
        assert r[1..] == Bump(d[1..], o);
      }
    }
  }

  lemma {:induction false} BumpTotal(d: seq<(nat, nat)>, o: nat)
    ensures Total(Bump(d, o)) == Total(d) + 1
    decreases |d|
  {
    var r := Bump(d, o);
    if |d| == 0 {
      assert r[1..] == [];
    } else if d[0].0 == o {
      assert r[1..] == d[1..];
    } else {
      BumpTotal(d[1..], o);
      assert r[1..] == Bump(d[1..], o);
    }
  }

  lemma {:induction false} BumpSizes(d: seq<(nat, nat)>, o: nat)
    ensures forall x: nat :: SizeOf(Bump(d, o), x) == SizeOf(d, x) + (if x == o then 1 else 0)
    decreases |d|
  {
    var r := Bump(d, o);
    if |d| == 0 {
      assert r[1..] == [];
    } else if d[0].0 == o {
      assert r[1..] == d[1..];
    } else {
      BumpSizes(d[1..], o);
      assert r[1..] == Bump(d[1..], o);
    }
  }

  lemma {:induction false} SizeOfAt(d: seq<(nat, nat)>, i: nat)
    requires DistinctOrders(d) && i < |d|
    ensures SizeOf(d, d[i].0) == d[i].1
  {
    if i > 0 {
      OrderKeysCons(d);
      var rest := d[1..];
      assert rest[i - 1] == d[i];
      SizeOfAt(rest, i - 1);
    }
  }

  /** The group sizes, and so the summed counts, are the occurrence counts:
      the distribution has one group per order that occurs, its size the
      number of occurrences, and the sizes sum to the number of records. */
  lemma {:induction false} DistributionSpec(os: seq<nat>)
    ensures var d := Distribution(os);
      DistinctOrders(d) && Total(d) == |os|
      && (forall x :: x in OrderKeys(d) <==> x in os)
      && (forall x: nat :: SizeOf(d, x) == Count(os, x))
      && forall i | 0 <= i < |d| :: d[i].1 == Count(os, d[i].0)
  {
    var d := Distribution(os);
    if |os| > 0 {
      var pre := os[..|os| - 1];
      var o := os[|os| - 1];
      assert os == pre + [o];
      DistributionSpec(pre);
      BumpSpec(Distribution(pre), o);
      forall i | 0 <= i < |d| ensures d[i].1 == Count(os, d[i].0) {
        SizeOfAt(d, i);
      }
    }
  }

  lemma {:induction false} CountAbsent(os: seq<nat>, x: nat)
    requires x !in os
    ensures Count(os, x) == 0
  {
    if |os| > 0 {
      assert os[..|os| - 1] <= os;
      CountAbsent(os[..|os| - 1], x);
    }
  }

  /** The records `get_lineage_summary` looks at: those of the named
      mapping, or all of them when no name is given. */
  function Selected(recs: seq<ConnRecord>, name: string): (r: seq<ConnRecord>) {
    if |name| > 0 then Where(recs, (c: ConnRecord) => c.mappingName == name) else recs
  }

  /** `get_lineage_summary`; `None` stands for the `{}` of an empty
      selection. */
  function Summarize(recs: seq<ConnRecord>, name: string): (r: Option<LineageSummary>) {
    var sel := Selected(recs, name);
    if |sel| == 0 then None
    else
      var os := OrdersOf(sel);
      Some(LineageSummary(|set c | c in sel :: c.toInstance|, MaxOf(os), Count(os, 0), Distribution(os)))
  }

  /** The summary is empty exactly when nothing is selected; otherwise the
      distribution counts sum to the number selected, the unconnected count
      is the count of order 0 (the count of that entry, if any), the
      maximum order is the largest order and is attained, and there are no
      more distinct targets than records. */
  lemma SummarizeSpec(recs: seq<ConnRecord>, name: string)
    ensures var sel := Selected(recs, name);
      var s := Summarize(recs, name);
      (s.None? <==> |sel| == 0)
      && (s.Some? ==>
            var d := s.value.orderDistribution;
            Total(d) == |sel|
            && (forall i | 0 <= i < |d| :: d[i].1 == Count(OrdersOf(sel), d[i].0))
            && (forall i | 0 <= i < |d| && d[i].0 == 0 :: s.value.unconnectedCount == d[i].1)
            && ((forall i | 0 <= i < |d| :: d[i].0 != 0) ==> s.value.unconnectedCount == 0)
            && (forall c | c in sel :: c.transformationOrder <= s.value.maxOrder)
            && (exists c | c in sel :: c.transformationOrder == s.value.maxOrder)
            && 1 <= s.value.totalTransformations <= |sel|)
  {
    var sel := Selected(recs, name);
    if |sel| > 0 {
      var os := OrdersOf(sel);
      DistributionSpec(os);
      var d := Distribution(os);
      if forall i | 0 <= i < |d| :: d[i].0 != 0 {
        assert 0 !in OrderKeys(d);
        CountAbsent(os, 0);
      }
      forall c | c in sel ensures c.transformationOrder <= MaxOf(os) {
        var i :| 0 <= i < |sel| && sel[i] == c;
        assert os[i] in os;
      }
      var i :| 0 <= i < |os| && os[i] == MaxOf(os);
      assert sel[i] in sel;
      ImageCard(sel);
    }
  }

  /** There are no more distinct targets than records, and at least one. */
  lemma {:induction false} ImageCard(sel: seq<ConnRecord>)
    requires |sel| > 0
    ensures 1 <= |set c | c in sel :: c.toInstance| <= |sel|
  {
    var pre := sel[..|sel| - 1];
    var last := sel[|sel| - 1];
    assert sel == pre + [last];
    var s := set c | c in sel :: c.toInstance;
    var s0 := set c | c in pre :: c.toInstance;
    assert s == s0 + {last.toInstance};
    if |pre| > 0 {
      ImageCard(pre);
    } else {
      assert s0 == {};
    }
  }

  // ---------------------------------------------------------------- the extractor

  /** `type_l in x.lower()` on an instance type, which raises unless it is
      a string. */
  function TypeHas(x: Value, lowered: string): (r: Result<bool, string>)
    ensures r.Ok? <==> x.Str?
  {
    match PyLower(x)
    case Err(e) => Err(e)
    case Ok(s) => Ok(Contains(s, lowered))
  }

  /** The test of `filter_by_instance_type`; the source type is tested
      first, and the target type only when the source does not match. */
  function TypeMatch(lowered: string, c: ConnRecord): (r: Result<bool, string>) {
    match TypeHas(c.fromInstanceType, lowered)
    case Err(e) => Err(e)
    case Ok(true) => Ok(true)
    case Ok(false) => TypeHas(c.toInstanceType, lowered)
  }

  class InformaticaMappingExtractor {
    var connectorsData: seq<ConnRecord>
    var transformationLogicCache: Caches

    constructor()
      ensures connectorsData == [] && transformationLogicCache == map[]
    {
      connectorsData := [];
      transformationLogicCache := map[];
    }

    /** `_extract_transformation_logic`. */
    method ExtractTransformationLogic(md: Value, name: string) returns (r: Result<(), string>)
      requires md.Dict?
      modifies this
      ensures r.Ok? <==> ConnLogicCache(md).Ok?
      ensures r.Ok? ==> transformationLogicCache == old(transformationLogicCache)[name := ConnLogicCache(md).value]
      ensures connectorsData == old(connectorsData)
    {
      transformationLogicCache := transformationLogicCache[name := map[]];
      var ts := TransformationsOf(md);
      if ts.Err? {
        return Err(ts.error);
      }
      var cache := KeyInto(ts.value, TransformationName, ConnEntryOf);
      if cache.Err? {
        return Err(cache.error);
      }
      UpdateTwice(old(transformationLogicCache), name, map[], cache.value);
      transformationLogicCache := transformationLogicCache[name := cache.value];
      return Ok(());
    }

    /** `_calculate_transformation_order`, with the loop over the
        connectors, the component loop and the fill. */
    method CalculateTransformationOrder(cs: seq<Value>, name: string) returns (r: Result<map<string, nat>, string>)
      ensures r == ConnTransformationOrder(cs, CacheNames(transformationLogicCache, name))
    {
      var es: seq<Edge> := [];
      for i := 0 to |cs|
        invariant ConnEdges(cs[..i]) == Ok(es)
      {
        CollectSomePrefix(cs, i, ConnEnd);
        var end := ConnEnd(cs[i]);
        if end.Err? {
          CollectSomeErr(cs, i + 1, ConnEnd);
          return Err(end.error);
        }
        if end.value.Some? {
          es := es + [end.value.value];
        }
      }
      assert cs[..|cs|] == cs;
      var orders := ComponentOrders(ConnGraph(es));
      if name in transformationLogicCache {
        orders := FillCacheNames(orders, transformationLogicCache[name].Keys);
      }
      return Ok(orders);
    }

    /** The connector loop of `_process_workflow_data`. */
    method ProcessConnectors(cs: seq<Value>, number: nat, name: string, orders: map<string, nat>)
      modifies this
      ensures connectorsData == old(connectorsData) + FilterSome(cs, ConnProcessor(number, name, orders, transformationLogicCache))
      ensures transformationLogicCache == old(transformationLogicCache)
    {
      connectorsData := AppendKept(cs, ConnProcessor(number, name, orders, transformationLogicCache), connectorsData);
    }

    /** One mapping of the loop of `_process_workflow_data`: its logic is
        cached, its orders computed, its connectors processed. */
    method ProcessMapping(m: Value, number: nat) returns (r: Result<(), string>)
      modifies this
      ensures var run := RunMapping(m, number, old(transformationLogicCache));
        (r.Ok? <==> run.Ok?)
        && (r.Ok? ==> connectorsData == old(connectorsData) + run.value.0 && transformationLogicCache == run.value.1)
    {
      if !m.Dict? {
        return Err(WrongShape);
      }
      var name := MappingName(m);
      var x := ExtractTransformationLogic(m, name);
      if x.Err? {
        return Err(x.error);
      }
      var cs := ConnectorsOf(m);
      var orders := CalculateTransformationOrder(cs, name);
      if orders.Err? {
        return Err(orders.error);
      }
      ProcessConnectors(cs, number, name, orders.value);
      return Ok(());
    }

    /** `_process_workflow_data`: the records are reset, then each mapping
        is processed in turn. */
    method ProcessWorkflowData(workflow: Value) returns (r: Result<seq<ConnRecord>, string>)
      modifies this
      ensures r.Ok? <==> RunWorkflow(workflow, old(transformationLogicCache)).Ok?
      ensures r.Ok? ==> r.value == connectorsData == RunWorkflow(workflow, old(transformationLogicCache)).value.0
      ensures r.Ok? ==> transformationLogicCache == RunWorkflow(workflow, old(transformationLogicCache)).value.1
    {
      connectorsData := [];
      var ms := ExtractMappings(workflow);
      if |ms| == 0 {
        return Ok([]);
      }
      for k := 0 to |ms|
        invariant RunMappings(ms[..k], old(transformationLogicCache)) == Ok((connectorsData, transformationLogicCache))
      {
        RunMappingsPrefix(ms, k, old(transformationLogicCache));
        var x := ProcessMapping(ms[k], k + 1);
        if x.Err? {
          RunMappingsErr(ms, k + 1, old(transformationLogicCache));
          return Err(x.error);
        }
      }
      assert ms[..|ms|] == ms;
      return Ok(connectorsData);
    }

    /** `get_lineage_summary`, with the grouping loop. */
    method GetLineageSummary(name: string) returns (r: Option<LineageSummary>)
      ensures r == Summarize(connectorsData, name)
    {
      var sel: seq<ConnRecord> := if |name| > 0 then Where(connectorsData, (c: ConnRecord) => c.mappingName == name) else connectorsData;
      if |sel| == 0 {
        return None;
      }
      var d: seq<(nat, nat)> := [];
      for i := 0 to |sel|
        invariant d == Distribution(OrdersOf(sel)[..i])
      {
        assert OrdersOf(sel)[..i + 1][..i] == OrdersOf(sel)[..i];
        d := Bump(d, sel[i].transformationOrder);
      }
      assert OrdersOf(sel)[..|sel|] == OrdersOf(sel);
      var os := OrdersOf(sel);
      return Some(LineageSummary(|set c | c in sel :: c.toInstance|, MaxOf(os), Count(os, 0), d));
    }

    /** `filter_by_mapping`: a case-insensitive substring match. */
    function FilterByMapping(name: string): (r: seq<ConnRecord>)
      reads this
      ensures |r| <= |connectorsData|
      ensures forall c | c in r :: c in connectorsData && Contains(Lower(c.mappingName), Lower(name))
      ensures forall i | 0 <= i < |connectorsData| && Contains(Lower(connectorsData[i].mappingName), Lower(name)) ::
                connectorsData[i] in r
    {
      Where(connectorsData, (c: ConnRecord) => Contains(Lower(c.mappingName), Lower(name)))
    }

    /** `filter_by_instance_type`: it raises on the first record whose
        type it cannot lower-case. */
    function FilterByInstanceType(t: string): (r: Result<seq<ConnRecord>, string>)
      reads this
      ensures r.Ok? <==> forall i | 0 <= i < |connectorsData| :: TypeMatch(Lower(t), connectorsData[i]).Ok?
      ensures r.Ok? ==> forall c | c in r.value :: c in connectorsData && TypeMatch(Lower(t), c) == Ok(true)
      ensures r.Ok? ==> forall i | 0 <= i < |connectorsData| && TypeMatch(Lower(t), connectorsData[i]) == Ok(true) ::
                connectorsData[i] in r.value
    {
      if forall i | 0 <= i < |connectorsData| :: TypeMatch(Lower(t), connectorsData[i]).Ok? then
        Ok(Where(connectorsData, (c: ConnRecord) => TypeMatch(Lower(t), c) == Ok(true)))
      else Err(WrongShape)
    }

    /** `filter_by_order`: exact equality. */
    function FilterByOrder(order: nat): (r: seq<ConnRecord>)
      reads this
      ensures |r| <= |connectorsData|
      ensures forall c | c in r :: c in connectorsData && c.transformationOrder == order
      ensures forall i | 0 <= i < |connectorsData| && connectorsData[i].transformationOrder == order ::
                connectorsData[i] in r
    {
      Where(connectorsData, (c: ConnRecord) => c.transformationOrder == order)
    }
  }

  /** The component loop of `_calculate_transformation_order`, with the
      breadth-first `while queue` loop for each larger component. */
  method ComponentOrders(g: Graph) returns (orders: map<string, nat>)
    requires Valid(g)
    ensures orders == ConnOrders(g)
  {
    ComponentsWithin(g);
    var comps := WeakComponents(g);
    ghost var parts := ComponentOrderParts(g, comps);
    orders := map[];
    for i := 0 to |comps|
      invariant orders == MergeMaps(parts[..i])
    {
      MergeMapsPrefix(parts, i);
      var c := comps[i];
      assert c in comps;
      assert parts[i] == ConnComponentOrders(g, c);
      var sub := Subgraph(g, c);
      SubgraphNonEmpty(g, c);
      var part: map<string, nat>;
      if |c| == 1 {
        part := map[sub.nodes[0] := 0];
      } else {
        SourcesSpec(sub);
        var levels := BfsLevels(sub, Sources(sub));
        part := map n | n in levels :: levels[n] + 1;
      }
      orders := orders + part;
    }
    assert parts[..|comps|] == parts;
  }

  /** The fill loop over the names of the logic cache. */
  method FillCacheNames(orders0: map<string, nat>, names: set<string>) returns (orders: map<string, nat>)
    ensures orders == FillZero(orders0, names)
  {
    orders := orders0;
    var rest := names;
    while rest != {}
      invariant rest <= names
      invariant forall x :: x in orders <==> x in orders0 || (x in names && x !in rest)
      invariant forall n | n in orders0 :: orders[n] == orders0[n]
      invariant forall n | n in orders && n !in orders0 :: orders[n] == 0
      decreases |rest|
    {
      var n :| n in rest;
      if n !in orders {
        orders := orders[n := 0];
      }
      rest := rest - {n};
    }
    FillZeroOnly(orders0, names, orders);
  }

  /** The map the fill loop ends with is the fill. */
  lemma FillZeroOnly(orders0: map<string, nat>, names: set<string>, orders: map<string, nat>)
    requires forall x :: x in orders <==> x in orders0 || x in names
    requires forall n | n in orders0 :: orders[n] == orders0[n]
    requires forall n | n in orders && n !in orders0 :: orders[n] == 0
    ensures orders == FillZero(orders0, names)
  {
    var r := FillZero(orders0, names);
    assert orders.Keys == r.Keys;
    assert forall n | n in r :: orders[n] == r[n];
  }
}
