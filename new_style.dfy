/** The `InfaLineageGenerator` of XMLify/excel_export/new_style.py: it finds
    one mapping of a workflow export, collects its connectors, instances and
    transformations, builds the instance graph, orders the instances, caches
    every transformation's logic text and enriches each connector with the
    order, execution level, parallel group and logic of its target. */
module NewStyle {
  import opened Wrappers
  import opened Text
  import opened Json
  import opened Digraph
  import opened Levels
  import opened ParallelGroups
  import opened Ordering
  import opened Logic
  import opened Seqs

  const KeyMissing := "missing key"
  const NotIterable := "not iterable"
  const Unhashable := "unhashable"
  const NoSuchMapping := "mapping does not exist in the workflow"

  // ---------------------------------------------------------------- finding the mapping

  /** The mappings one folder contributes: a dict is one mapping, a list its
      items, anything else none. */
  function Held(folder: Value): (r: seq<Value>)
    requires folder.Dict?
  {
    AsList(GetOr(folder, "MAPPING", List([])))
  }

  /** The folder loop of `_extract_mappings`. `folder.get` raises on a folder
      that is not a dict, and the handler returns what was gathered before. */
  function MappingsIn(folders: seq<Value>): (ms: seq<Value>)
    ensures forall m | m in ms :: exists i | 0 <= i < |folders| :: folders[i].Dict? && m in Held(folders[i])
    decreases |folders|
  {
    if |folders| == 0 || !folders[0].Dict? then []
    else
      var rest := MappingsIn(folders[1..]);
      assert forall i | 1 <= i < |folders| :: folders[1..][i - 1] == folders[i];
      Held(folders[0]) + rest
  }

  /** Every mapping of a folder preceded only by dict folders is found. */
  lemma {:induction false} MappingsInComplete(folders: seq<Value>, i: nat, m: Value)
    requires i < |folders| && forall j | 0 <= j <= i :: folders[j].Dict?
    requires m in Held(folders[i])
    ensures m in MappingsIn(folders)
  {
    if i > 0 {
      assert forall j | 0 <= j <= i - 1 :: folders[1..][j] == folders[j + 1];
      MappingsInComplete(folders[1..], i - 1, m);
    }
  }

  /** A folder that is not a dict ends the search: nothing after it counts. */
  lemma {:induction false} MappingsInStops(folders: seq<Value>, i: nat)
    requires i < |folders| && !folders[i].Dict?
    ensures MappingsIn(folders) == MappingsIn(folders[..i])
  {
    if i > 0 {
      assert folders[1..][..i - 1] == folders[..i][1..];
      MappingsInStops(folders[1..], i - 1);
    }
  }

  /** `_extract_mappings`: POWERMART, then REPOSITORY, then FOLDER, each
      defaulting to an empty dict; a FOLDER that is neither a dict nor a list
      gives no mappings, and so does any lookup on something that is not a
      dict. */
  function ExtractMappings(workflow: Value): (r: seq<Value>) {
    match PyGet(workflow, "POWERMART", Dict([]))
    case Err(_) => []
    case Ok(powermart) =>
      match PyGet(powermart, "REPOSITORY", Dict([]))
      case Err(_) => []
      case Ok(repository) =>
        match PyGet(repository, "FOLDER", Dict([]))
        case Err(_) => []
        case Ok(folder) => MappingsIn(AsList(folder))
  }

  /** A single folder dict at the usual place yields exactly its mappings. */
  lemma ExtractMappingsSingleFolder(workflow: Value)
    requires PyGet(workflow, "POWERMART", Dict([])).Ok?
    requires PyGet(PyGet(workflow, "POWERMART", Dict([])).value, "REPOSITORY", Dict([])).Ok?
    requires
      var repository := PyGet(PyGet(workflow, "POWERMART", Dict([])).value, "REPOSITORY", Dict([])).value;
      PyGet(repository, "FOLDER", Dict([])).Ok? && PyGet(repository, "FOLDER", Dict([])).value.Dict?
    ensures
      var repository := PyGet(PyGet(workflow, "POWERMART", Dict([])).value, "REPOSITORY", Dict([])).value;
      ExtractMappings(workflow) == Held(PyGet(repository, "FOLDER", Dict([])).value)
  {
    var repository := PyGet(PyGet(workflow, "POWERMART", Dict([])).value, "REPOSITORY", Dict([])).value;
    var folder := PyGet(repository, "FOLDER", Dict([])).value;
    assert AsList(folder) == [folder];
    assert MappingsIn([folder]) == Held(folder) + MappingsIn([]);
  }

  /** `mapping_name == mapping.get('@NAME')`. */
  predicate NamedAs(m: Value, name: string)
    requires m.Dict?
  {
    GetOr(m, "@NAME", Null) == Str(name)
  }

  /** The search of `check_if_mapping_exists` from position `i`: the index of
      the first mapping named `name`, `None` when there is none, and an error
      when `.get` meets a mapping that is not a dict before a match. */
  function FindFrom(ms: seq<Value>, name: string, i: nat): (r: Result<Option<nat>, string>)
    requires i <= |ms|
    ensures r.Ok? && r.value.Some? ==>
              i <= r.value.value < |ms| && ms[r.value.value].Dict? && NamedAs(ms[r.value.value], name)
              && forall j | i <= j < r.value.value :: ms[j].Dict? && !NamedAs(ms[j], name)
    ensures r == Ok(None) <==> forall j | i <= j < |ms| :: ms[j].Dict? && !NamedAs(ms[j], name)
    ensures r.Err? ==> exists j | i <= j < |ms| :: !ms[j].Dict?
    decreases |ms| - i
  {
    if i == |ms| then Ok(None)
    else if !ms[i].Dict? then Err(WrongShape)
    else if NamedAs(ms[i], name) then Ok(Some(i))
    else FindFrom(ms, name, i + 1)
  }

  /** The loop of `check_if_mapping_exists`. */
  method CheckIfMappingExists(ms: seq<Value>, name: string) returns (r: Result<Option<nat>, string>)
    ensures r == FindFrom(ms, name, 0)
  {
    var i := 0;
    while i < |ms|
      invariant 0 <= i <= |ms|
      invariant FindFrom(ms, name, i) == FindFrom(ms, name, 0)
    {
      if !ms[i].Dict? {
        return Err(WrongShape);
      }
      if GetOr(ms[i], "@NAME", Null) == Str(name) {
        return Ok(Some(i));
      }
      i := i + 1;
    }
    return Ok(None);
  }

  // ---------------------------------------------------------------- fetching the records

  /** `for c in mapping_data['CONNECTOR']`: the key must be present and its
      value iterable. */
  function FetchConnectors(md: Value): (r: Result<seq<Value>, string>)
    requires md.Dict?
    ensures r.Ok? <==> Has(md, "CONNECTOR") && Iterate(Get(md, "CONNECTOR").value).Some?
    ensures r.Ok? ==> r.value == Iterate(Get(md, "CONNECTOR").value).value
  {
    match Get(md, "CONNECTOR")
    case None => Err(KeyMissing)
    case Some(v) =>
      match Iterate(v)
      case None => Err(NotIterable)
      case Some(xs) => Ok(xs)
  }

  /** `for x in mapping_data.get(key, [])`: an absent key is an empty list. */
  function FetchAll(md: Value, key: string): (r: Result<seq<Value>, string>)
    requires md.Dict?
    ensures !Has(md, key) ==> r == Ok([])
    ensures Has(md, key) ==> (r.Ok? <==> Iterate(Get(md, key).value).Some?)
  {
    match Iterate(GetOr(md, key, List([])))
    case None => Err(NotIterable)
    case Some(xs) => Ok(xs)
  }

  // ---------------------------------------------------------------- the instance graph

  /** `record[key]`: a dict with that key; anything else raises. */
  function Index(v: Value, key: string): (r: Result<Value, string>)
    ensures r.Ok? <==> Has(v, key)
    ensures r.Ok? ==> Get(v, key) == Some(r.value)
  {
    match Get(v, key)
    case None => Err(KeyMissing)
    case Some(x) => Ok(x)
  }

  /** `create_transform_type_acronym` applied to whatever a record holds:
      only a string can equal one of the listed types, and anything else is
      returned as it is and formatted by the f-string. */
  function AcronymOf(t: Value): (r: string) {
    if t.Str? then Acronym(t.s) else Stringify(t)
  }

  /** The f-string `{acronym(type)}{name}`. */
  function NodeNameOf(t: Value, name: Value): (r: string) {
    AcronymOf(t) + Stringify(name)
  }

  /** The node of one instance. */
  function InstanceNode(inst: Value): (r: Result<string, string>)
    ensures r.Ok? <==> Has(inst, "@TRANSFORMATION_TYPE") && Has(inst, "@NAME")
  {
    match Index(inst, "@TRANSFORMATION_TYPE")
    case Err(e) => Err(e)
    case Ok(t) =>
      match Index(inst, "@NAME")
      case Err(e) => Err(e)
      case Ok(n) => Ok(NodeNameOf(t, n))
  }

  /** The edge of one connector, from `@FROMINSTANCETYPE`/`@FROMINSTANCE` to
      `@TOINSTANCETYPE`/`@TOINSTANCE`. */
  function ConnectorEdge(c: Value): (r: Result<Edge, string>)
    ensures r.Ok? <==> Has(c, "@FROMINSTANCETYPE") && Has(c, "@FROMINSTANCE")
                       && Has(c, "@TOINSTANCETYPE") && Has(c, "@TOINSTANCE")
  {
    match Index(c, "@FROMINSTANCETYPE")
    case Err(e) => Err(e)
    case Ok(ft) =>
      match Index(c, "@FROMINSTANCE")
      case Err(e) => Err(e)
      case Ok(fi) =>
        match Index(c, "@TOINSTANCETYPE")
        case Err(e) => Err(e)
        case Ok(tt) =>
          match Index(c, "@TOINSTANCE")
          case Err(e) => Err(e)
          case Ok(ti) => Ok(Edge(NodeNameOf(ft, fi), NodeNameOf(tt, ti)))
  }

  /** The nodes of the instances, in order; the first record that lacks a
      key raises. */
  function InstanceNodes(insts: seq<Value>): (r: Result<seq<string>, string>) {
    MapAll(insts, InstanceNode)
  }

  /** The edges of the connectors, in order. */
  function ConnectorEdges(cs: seq<Value>): (r: Result<seq<Edge>, string>) {
    MapAll(cs, ConnectorEdge)
  }

  /** `G.add_node` for every name in turn. */
  function AddNodes(g: Graph, ns: seq<string>): (r: Graph)
    ensures Valid(g) ==> Valid(r)
    ensures r.edges == g.edges
    ensures forall n :: n in r.nodes <==> n in g.nodes || n in ns
  {
    if |ns| == 0 then g
    else
      SplitLast(ns);
      AddNode(AddNodes(g, ns[..|ns| - 1]), ns[|ns| - 1])
  }

  /** One more name. */
  lemma AddNodesStep(g: Graph, ns: seq<string>, n: string)
    ensures AddNodes(g, ns + [n]) == AddNode(AddNodes(g, ns), n)
  {
    assert (ns + [n])[..|ns|] == ns;
  }

  /** The endpoints of some edges. */
  function Ends(es: seq<Edge>): (r: set<string>)
    ensures forall n :: n in r <==> exists e | e in es :: n == e.src || n == e.dst
  {
    if |es| == 0 then {}
    else
      var pre := es[..|es| - 1];
      var e := es[|es| - 1];
      SplitLast(es);
      Ends(pre) + {e.src, e.dst}
  }

  /** `G.add_edge` for every edge in turn. */
  function AddEdges(g: Graph, es: seq<Edge>): (r: Graph)
    ensures Valid(g) ==> Valid(r)
    ensures forall n :: n in r.nodes <==> n in g.nodes || n in Ends(es)
    ensures forall e :: e in r.edges <==> e in g.edges || e in es
  {
    if |es| == 0 then g
    else
      var pre := es[..|es| - 1];
      var e := es[|es| - 1];
      SplitLast(es);
      AddEdge(AddEdges(g, pre), e.src, e.dst)
  }

  /** One more edge. */
  lemma AddEdgesStep(g: Graph, es: seq<Edge>, e: Edge)
    ensures AddEdges(g, es + [e]) == AddEdge(AddEdges(g, es), e.src, e.dst)
  {
    assert (es + [e])[..|es|] == es;
  }

  /** `create_basic_lineage_graph`: a node per instance, then an edge per
      connector, whose endpoints are added when no instance declared them. */
  function LineageGraph(insts: seq<Value>, cs: seq<Value>): (r: Result<Graph, string>) {
    match InstanceNodes(insts)
    case Err(e) => Err(e)
    case Ok(ns) =>
      match ConnectorEdges(cs)
      case Err(e) => Err(e)
      case Ok(es) => Ok(AddEdges(AddNodes(Empty(), ns), es))
  }

  /** The graph is well formed; its nodes are the instances' nodes and the
      connectors' endpoints; its edges are the connectors' edges, a repeated
      connector giving one edge. */
  lemma LineageGraphShape(insts: seq<Value>, cs: seq<Value>)
    requires LineageGraph(insts, cs).Ok?
    ensures var g := LineageGraph(insts, cs).value;
      var ns := InstanceNodes(insts).value;
      var es := ConnectorEdges(cs).value;
      Valid(g)
      && (forall n :: n in g.nodes <==> n in ns || n in Ends(es))
      && (forall e :: e in g.edges <==> e in es)
  {
    var ns := InstanceNodes(insts).value;
    var es := ConnectorEdges(cs).value;
    BuiltGraph(ns, es);
  }

  lemma BuiltGraph(ns: seq<string>, es: seq<Edge>)
    ensures var g := AddEdges(AddNodes(Empty(), ns), es);
      Valid(g)
      && (forall n :: n in g.nodes <==> n in ns || n in Ends(es))
      && (forall e :: e in g.edges <==> e in es)
  {
  }

  /** A node of an instance is in the graph even when no connector touches
      it, so unconnected instances still get an order. */
  lemma InstancesAreNodes(insts: seq<Value>, cs: seq<Value>, i: nat)
    requires LineageGraph(insts, cs).Ok? && i < |insts|
    ensures InstanceNode(insts[i]).Ok? && InstanceNode(insts[i]).value in LineageGraph(insts, cs).value.nodes
  {
    MapAllSpec(insts, InstanceNode);
    LineageGraphShape(insts, cs);
  }

  // ---------------------------------------------------------------- the logic cache

  const NameKeys: seq<string> := ["@NAME", "NAME", "@name", "name"]
  const TypeKeys: seq<string> := ["@TYPE", "TYPE", "@type", "type"]
  const UnknownTransformation := "Unknown Transformation"
  const UnknownType := "Unknown Type"

  datatype LogicEntry = LogicEntry(ttype: string, logic: string)

  /** `_get_transformation_name`. */
  function TransformationName(t: Value): (r: string) {
    FirstKeyText(t, NameKeys, UnknownTransformation)
  }

  /** `_get_transformation_type`. */
  function TransformationType(t: Value): (r: string) {
    FirstKeyText(t, TypeKeys, UnknownType)
  }

  /** The entry `_extract_transformation_logic` stores for one
      transformation, with the Source Qualifier branch of this extractor. */
  function EntryOf(t: Value): (r: Result<LogicEntry, string>) {
    match ExtractLogic(t, TransformationType(t), true)
    case Err(e) => Err(e)
    case Ok(l) => Ok(LogicEntry(TransformationType(t), l))
  }

  /** Every cached logic text is non-empty. */
  lemma CacheLogicNonEmpty(ts: seq<Value>, n: string)
    requires KeyedAll(ts, TransformationName, EntryOf).Ok? && n in KeyedAll(ts, TransformationName, EntryOf).value
    ensures |KeyedAll(ts, TransformationName, EntryOf).value[n].logic| > 0
  {
    KeyedAllValues(ts, TransformationName, EntryOf);
    var m := KeyedAll(ts, TransformationName, EntryOf).value;
    var i :| 0 <= i < |ts| && TransformationName(ts[i]) == n && m[n] == EntryOf(ts[i]).value;
    ExtractLogicNonEmpty(ts[i], TransformationType(ts[i]), true);
  }

  /** The transformations of a mapping: `TRANSFORMATION` defaults to an
      empty list and a single dict is one transformation. */
  function TransformationsOf(md: Value): (r: Result<seq<Value>, string>)
    requires md.Dict?
  {
    ElementsOf(GetOr(md, "TRANSFORMATION", List([])))
  }

  /** The whole cache of a mapping. */
  function LogicCacheOf(md: Value): (r: Result<map<string, LogicEntry>, string>)
    requires md.Dict?
  {
    match TransformationsOf(md)
    case Err(e) => Err(e)
    case Ok(ts) => KeyedAll(ts, TransformationName, EntryOf)
  }

  // ---------------------------------------------------------------- one connector

  datatype ConnectorInfo = ConnectorInfo(
    mappingNumber: nat, mappingName: string,
    fromField: Value, fromInstance: Value, fromInstanceType: Value,
    toField: Value, toInstance: Value, toInstanceType: Value,
    transformationOrder: nat, transformationLogic: string,
    parallelGroup: string, executionLevel: nat)

  /** `c.get(attr, '')`, and `c.get(plain, '')` when that is falsy. */
  function ConnField(c: Value, attr: string, plain: string): (r: Value)
    requires c.Dict?
  {
    var v := GetOr(c, attr, Str(""));
    if Truthy(v) then v else GetOr(c, plain, Str(""))
  }

  /** `x in d` for a dict with string keys: an unhashable `x` raises, and
      only a string can be a key. */
  function CacheHas(cache: map<string, LogicEntry>, x: Value): (r: Result<bool, string>)
    ensures r.Err? <==> x.List? || x.Dict?
    ensures r == Ok(true) <==> x.Str? && x.s in cache
  {
    if x.List? || x.Dict? then Err(Unhashable) else Ok(x.Str? && x.s in cache)
  }

  /** `max(0, order - 1) if order > 0 else 0`. */
  function ExecutionLevel(order: nat): (l: nat) {
    if order > 0 then (if 0 > order - 1 then 0 else order - 1) else 0
  }

  /** The logic a connector carries: that of its target instance, else that
      of its source instance, else none. */
  function ConnectorLogic(caches: map<string, map<string, LogicEntry>>, name: string, from: Value, to: Value)
    : (r: Result<string, string>)
  {
    if name !in caches then Ok("")
    else
      var cache := caches[name];
      match CacheHas(cache, to)
      case Err(e) => Err(e)
      case Ok(true) => Ok(cache[to.s].logic)
      case Ok(false) =>
        match CacheHas(cache, from)
        case Err(e) => Err(e)
        case Ok(true) => Ok(cache[from.s].logic)
        case Ok(false) => Ok("")
  }

  /** `_process_connector_with_lineage`; `None` where the source's handler
      catches an exception (a connector that is not a dict, an unhashable
      instance). */
  function ProcessConnector(c: Value, number: nat, name: string, a: Assignment,
                            caches: map<string, map<string, LogicEntry>>): (r: Option<ConnectorInfo>)
  {
    if !c.Dict? then None
    else
      var fromField := ConnField(c, "@FROMFIELD", "FROMFIELD");
      var fromInstance := ConnField(c, "@FROMINSTANCE", "FROMINSTANCE");
      var fromType := ConnField(c, "@FROMINSTANCETYPE", "FROMINSTANCETYPE");
      var toField := ConnField(c, "@TOFIELD", "TOFIELD");
      var toInstance := ConnField(c, "@TOINSTANCE", "TOINSTANCE");
      var toType := ConnField(c, "@TOINSTANCETYPE", "TOINSTANCETYPE");
      var toNode := NodeNameOf(toType, toInstance);
      var order := if toNode in a.orders then a.orders[toNode] else 0;
      var group := if toNode in a.groups then a.groups[toNode] else "unknown";
      match ConnectorLogic(caches, name, fromInstance, toInstance)
      case Err(_) => None
      case Ok(logic) =>
        Some(ConnectorInfo(number, name, fromField, fromInstance, fromType, toField, toInstance, toType,
                           order, logic, group, ExecutionLevel(order)))
  }

  /** The order of a connector is that of its target node, 0 when the node
      has none; its execution level is one less, never below 0; its group is
      the target's, `unknown` when the node has none. */
  lemma ConnectorOrder(c: Value, number: nat, name: string, a: Assignment,
                       caches: map<string, map<string, LogicEntry>>)
    requires ProcessConnector(c, number, name, a, caches).Some?
    ensures var r := ProcessConnector(c, number, name, a, caches).value;
      var toNode := NodeNameOf(r.toInstanceType, r.toInstance);
      (toNode in a.orders ==> r.transformationOrder == a.orders[toNode])
      && (toNode !in a.orders ==> r.transformationOrder == 0 && r.executionLevel == 0)
      && (toNode in a.groups ==> r.parallelGroup == a.groups[toNode])
      && (toNode !in a.groups ==> r.parallelGroup == "unknown")
      && (r.transformationOrder > 0 ==> r.executionLevel + 1 == r.transformationOrder)
      && (r.transformationOrder == 0 ==> r.executionLevel == 0)
      && r.executionLevel <= r.transformationOrder
  {
  }

  /** A connector is dropped exactly when it is not a dict or an instance it
      looks up in the cache is unhashable; its logic comes from the target
      instance first, then from the source instance. */
  lemma ConnectorLogicLookup(c: Value, number: nat, name: string, a: Assignment,
                             caches: map<string, map<string, LogicEntry>>)
    requires c.Dict? && name in caches
    ensures var to := ConnField(c, "@TOINSTANCE", "TOINSTANCE");
      var from := ConnField(c, "@FROMINSTANCE", "FROMINSTANCE");
      var cache := caches[name];
      var r := ProcessConnector(c, number, name, a, caches);
      (r.None? <==> to.List? || to.Dict? || (!(to.Str? && to.s in cache) && (from.List? || from.Dict?)))
      && (r.Some? && to.Str? && to.s in cache ==> r.value.transformationLogic == cache[to.s].logic)
      && (r.Some? && !(to.Str? && to.s in cache) && from.Str? && from.s in cache ==>
            r.value.transformationLogic == cache[from.s].logic)
      && (r.Some? && !(to.Str? && to.s in cache) && !(from.Str? && from.s in cache) ==>
            r.value.transformationLogic == "")
  {
  }

  /** The step of the connector loop. */
  function Processor(number: nat, name: string, a: Assignment, caches: map<string, map<string, LogicEntry>>)
    : (r: Value -> Option<ConnectorInfo>)
  {
    c => ProcessConnector(c, number, name, a, caches)
  }

  /** The connector loop of `process_mapping`: the records of the connectors
      that were not dropped, in order. */
  function ProcessAll(cs: seq<Value>, number: nat, name: string, a: Assignment,
                      caches: map<string, map<string, LogicEntry>>): (r: seq<ConnectorInfo>)
  {
    FilterSome(cs, Processor(number, name, a, caches))
  }

  // ---------------------------------------------------------------- orders of the whole graph

  /** The orders cover the graph's nodes and nothing else when no cache name
      is filled in. */
  lemma TransformationOrderKeys(g: Graph)
    requires Valid(g)
    ensures TransformationOrder(g, None).orders.Keys == NodeSet(g)
    ensures TransformationOrder(g, None).groups.Keys == NodeSet(g)
  {
    ComponentsWithin(g);
    var cs := WeakComponents(g);
    var parts := ComponentAssignments(g, cs);
    forall j, m | 0 <= j < |cs| ensures m in parts[j].orders <==> m in cs[j] {
      assert parts[j] == ComponentAssignment(g, cs[j], j);
    }
    MergeKeys(parts, cs);
  }

  /** Merging assignments keyed by the sets `cs` keys the union. */
  lemma MergeKeys(parts: seq<Assignment>, cs: seq<set<string>>)
    requires |parts| == |cs|
    requires forall j, m | 0 <= j < |cs| :: m in parts[j].orders <==> m in cs[j]
    ensures Merge(parts).orders.Keys == Union(cs)
  {
    forall n ensures n in Merge(parts).orders <==> n in Union(cs) {
      UnionIff(cs, n);
    }
  }

  // ---------------------------------------------------------------- the whole run

  /** What `main` leaves behind for the mapping found. */
  datatype Lineage = Lineage(
    connectors: seq<Value>, transformations: seq<Value>, instances: seq<Value>,
    graph: Graph, assignment: Assignment, cache: map<string, LogicEntry>,
    records: seq<ConnectorInfo>)

  /** `main` on a mapping: the three fetches, the graph, the orders (the
      logic cache is still empty when they are computed, so nothing is
      filled in), the logic cache, and the connector records. */
  function Generate(name: string, number: nat, md: Value): (r: Result<Lineage, string>)
    requires md.Dict?
  {
    match FetchConnectors(md)
    case Err(e) => Err(e)
    case Ok(cs) =>
      match FetchAll(md, "TRANSFORMATION")
      case Err(e) => Err(e)
      case Ok(ts) =>
        match FetchAll(md, "INSTANCE")
        case Err(e) => Err(e)
        case Ok(insts) =>
          match LineageGraph(insts, cs)
          case Err(e) => Err(e)
          case Ok(g) =>
            LineageGraphShape(insts, cs);
            var a := TransformationOrder(g, None);
            match LogicCacheOf(md)
            case Err(e) => Err(e)
            case Ok(cache) => Ok(Lineage(cs, ts, insts, g, a, cache, ProcessAll(cs, number, name, a, map[name := cache])))
  }

  /** `main` succeeds exactly when every step does, and then holds what
      each step computes from the ones before. */
  lemma GenerateStages(name: string, number: nat, md: Value)
    requires md.Dict?
    ensures Generate(name, number, md).Ok? <==>
      FetchConnectors(md).Ok? && FetchAll(md, "TRANSFORMATION").Ok? && FetchAll(md, "INSTANCE").Ok?
      && LineageGraph(FetchAll(md, "INSTANCE").value, FetchConnectors(md).value).Ok?
      && LogicCacheOf(md).Ok?
    ensures Generate(name, number, md).Ok? ==>
      var l := Generate(name, number, md).value;
      l.connectors == FetchConnectors(md).value && l.transformations == FetchAll(md, "TRANSFORMATION").value
      && l.instances == FetchAll(md, "INSTANCE").value
      && l.graph == LineageGraph(l.instances, l.connectors).value && Valid(l.graph)
      && l.assignment == TransformationOrder(l.graph, None) && l.cache == LogicCacheOf(md).value
      && l.records == ProcessAll(l.connectors, number, name, l.assignment, map[name := l.cache])
  {
    if FetchConnectors(md).Ok? && FetchAll(md, "TRANSFORMATION").Ok? && FetchAll(md, "INSTANCE").Ok?
       && LineageGraph(FetchAll(md, "INSTANCE").value, FetchConnectors(md).value).Ok? {
      LineageGraphShape(FetchAll(md, "INSTANCE").value, FetchConnectors(md).value);
    }
  }

  /** The names the logic cache holds for a mapping, if it holds it. */
  function CacheNames(cache: map<string, map<string, LogicEntry>>, name: string): (r: Option<set<string>>)
    ensures r.Some? <==> name in cache
    ensures r.Some? ==> r.value == cache[name].Keys
  {
    if name in cache then Some(cache[name].Keys) else None
  }

  /** Because the orders are computed before the logic cache is filled,
      exactly the graph's nodes get an order and a group: a transformation
      that is no node gets neither. */
  lemma OrdersAreGraphNodes(name: string, number: nat, md: Value)
    requires md.Dict? && Generate(name, number, md).Ok?
    ensures var l := Generate(name, number, md).value;
      l.assignment.orders.Keys == NodeSet(l.graph) && l.assignment.groups.Keys == NodeSet(l.graph)
  {
    var l := Generate(name, number, md).value;
    LineageGraphShape(l.instances, l.connectors);
    TransformationOrderKeys(l.graph);
  }

  /** There is at most one record per connector, and one per connector
      when every connector is a dict whose instances are strings. */
  lemma RecordsPerConnector(name: string, number: nat, md: Value)
    requires md.Dict? && Generate(name, number, md).Ok?
    ensures var l := Generate(name, number, md).value;
      |l.records| <= |l.connectors|
      && ((forall i | 0 <= i < |l.connectors| ::
             l.connectors[i].Dict? && ConnField(l.connectors[i], "@TOINSTANCE", "TOINSTANCE").Str?
             && ConnField(l.connectors[i], "@FROMINSTANCE", "FROMINSTANCE").Str?)
          ==> |l.records| == |l.connectors|)
  {
    var l := Generate(name, number, md).value;
    ProcessAllCount(l.connectors, number, name, l.assignment, map[name := l.cache]);
  }

  /** The connector loop drops a connector only when one of its instance
      fields is not a string. */
  lemma ProcessAllCount(cs: seq<Value>, number: nat, name: string, a: Assignment,
                        caches: map<string, map<string, LogicEntry>>)
    requires name in caches
    ensures |ProcessAll(cs, number, name, a, caches)| <= |cs|
    ensures (forall i | 0 <= i < |cs| ::
               cs[i].Dict? && ConnField(cs[i], "@TOINSTANCE", "TOINSTANCE").Str?
               && ConnField(cs[i], "@FROMINSTANCE", "FROMINSTANCE").Str?)
            ==> |ProcessAll(cs, number, name, a, caches)| == |cs|
  {
    var f := Processor(number, name, a, caches);
    if forall i | 0 <= i < |cs| :: cs[i].Dict? && ConnField(cs[i], "@TOINSTANCE", "TOINSTANCE").Str?
                                   && ConnField(cs[i], "@FROMINSTANCE", "FROMINSTANCE").Str? {
      forall i | 0 <= i < |cs| ensures f(cs[i]).Some? {
        ConnectorLogicLookup(cs[i], number, name, a, caches);
      }
      FilterSomeKeepsAll(cs, f);
    }
  }

  /** The generator: the fields `__init__` sets, and the steps of `main`,
      each a method that changes only its own field. */
  class InfaLineageGenerator {
    const mappingName: string
    const workflowData: Value
    const found: Result<Option<nat>, string>
    const mappingExists: bool
    const mappingData: Value
    const mappingNumber: nat
    var connectors: seq<Value>
    var transformations: seq<Value>
    var instances: seq<Value>
    var graph: Graph
    var logicCache: map<string, map<string, LogicEntry>>
    var transformationOrders: map<string, nat>
    var parallelGroups: map<string, string>
    var connectorsData: seq<ConnectorInfo>

    /** `__init__` up to the lookup of the mapping; `found` holds the
        outcome of `check_if_mapping_exists` (an error when it raised). */
    constructor(mappingName: string, workflowData: Value)
      ensures this.mappingName == mappingName && this.workflowData == workflowData
      ensures connectors == [] && transformations == [] && instances == [] && connectorsData == []
      ensures logicCache == map[] && transformationOrders == map[] && parallelGroups == map[]
      ensures graph == Empty()
      ensures found == FindFrom(ExtractMappings(workflowData), mappingName, 0)
      ensures mappingExists <==> found.Ok? && found.value.Some?
      ensures mappingExists ==> mappingNumber == found.value.value
                                && mappingNumber < |ExtractMappings(workflowData)|
                                && mappingData == ExtractMappings(workflowData)[mappingNumber]
                                && mappingData.Dict?
    {
      var ms := ExtractMappings(workflowData);
      var f := CheckIfMappingExists(ms, mappingName);
      this.mappingName := mappingName;
      this.workflowData := workflowData;
      found := f;
      connectors := [];
      transformations := [];
      instances := [];
      graph := Empty();
      logicCache := map[];
      transformationOrders := map[];
      parallelGroups := map[];
      connectorsData := [];
      if f.Ok? && f.value.Some? {
        mappingExists := true;
        mappingNumber := f.value.value;
        mappingData := ms[f.value.value];
      } else {
        mappingExists := false;
        mappingNumber := 0;
        mappingData := Null;
      }
    }

    /** `fetch_all_connectors`. */
    method FetchAllConnectors() returns (r: Result<(), string>)
      requires mappingData.Dict?
      modifies this`connectors
      ensures r.Ok? <==> FetchConnectors(mappingData).Ok?
      ensures r.Ok? ==> connectors == old(connectors) + FetchConnectors(mappingData).value
    {
      var v := Get(mappingData, "CONNECTOR");
      if v.None? {
        return Err(KeyMissing);
      }
      var xs := Iterate(v.value);
      if xs.None? {
        return Err(NotIterable);
      }
      for i := 0 to |xs.value|
        invariant connectors == old(connectors) + xs.value[..i]
      {
        connectors := connectors + [xs.value[i]];
        assert xs.value[..i + 1] == xs.value[..i] + [xs.value[i]];
      }
      assert xs.value[..|xs.value|] == xs.value;
      return Ok(());
    }

    /** `fetch_all_transformations`. */
    method FetchAllTransformations() returns (r: Result<(), string>)
      requires mappingData.Dict?
      modifies this`transformations
      ensures r.Ok? <==> FetchAll(mappingData, "TRANSFORMATION").Ok?
      ensures r.Ok? ==> transformations == old(transformations) + FetchAll(mappingData, "TRANSFORMATION").value
    {
      var xs := Iterate(GetOr(mappingData, "TRANSFORMATION", List([])));
      if xs.None? {
        return Err(NotIterable);
      }
      for i := 0 to |xs.value|
        invariant transformations == old(transformations) + xs.value[..i]
      {
        transformations := transformations + [xs.value[i]];
        assert xs.value[..i + 1] == xs.value[..i] + [xs.value[i]];
      }
      assert xs.value[..|xs.value|] == xs.value;
      return Ok(());
    }

    /** `fetch_all_instances`. */
    method FetchAllInstances() returns (r: Result<(), string>)
      requires mappingData.Dict?
      modifies this`instances
      ensures r.Ok? <==> FetchAll(mappingData, "INSTANCE").Ok?
      ensures r.Ok? ==> instances == old(instances) + FetchAll(mappingData, "INSTANCE").value
    {
      var xs := Iterate(GetOr(mappingData, "INSTANCE", List([])));
      if xs.None? {
        return Err(NotIterable);
      }
      for i := 0 to |xs.value|
        invariant instances == old(instances) + xs.value[..i]
      {
        instances := instances + [xs.value[i]];
        assert xs.value[..i + 1] == xs.value[..i] + [xs.value[i]];
      }
      assert xs.value[..|xs.value|] == xs.value;
      return Ok(());
    }

    /** `create_basic_lineage_graph`. */
    method CreateBasicLineageGraph() returns (r: Result<(), string>)
      modifies this`graph
      ensures r.Ok? <==> LineageGraph(instances, connectors).Ok?
      ensures r.Ok? ==> graph == LineageGraph(instances, connectors).value && Valid(graph)
    {
      var g := AddInstanceNodes(instances, InstanceNode);
      if g.Err? {
        return Err(g.error);
      }
      var h := AddConnectorEdges(g.value, connectors, ConnectorEdge);
      if h.Err? {
        return Err(h.error);
      }
      graph := h.value;
      LineageGraphShape(instances, connectors);
      return Ok(());
    }

    /** `_calculate_transformation_order`. */
    method CalculateTransformationOrder()
      requires Valid(graph)
      modifies this`transformationOrders, this`parallelGroups
      ensures Assignment(transformationOrders, parallelGroups) == TransformationOrder(graph, CacheNames(logicCache, mappingName))
    {
      var orders, groups := AssignAllComponents(graph);
      if mappingName in logicCache {
        orders, groups := FillFromCache(orders, groups, logicCache[mappingName].Keys);
      }
      transformationOrders := orders;
      parallelGroups := groups;
    }

    /** `_extract_transformation_logic`. */
    method ExtractTransformationLogic() returns (r: Result<(), string>)
      requires mappingData.Dict?
      modifies this`logicCache
      ensures r.Ok? <==> LogicCacheOf(mappingData).Ok?
      ensures r.Ok? ==> logicCache == old(logicCache)[mappingName := LogicCacheOf(mappingData).value]
    {
      logicCache := logicCache[mappingName := map[]];
      var ts := ElementsOf(GetOr(mappingData, "TRANSFORMATION", List([])));
      if ts.Err? {
        return Err(ts.error);
      }
      var entries := KeyInto(ts.value, TransformationName, EntryOf);
      if entries.Err? {
        return Err(entries.error);
      }
      UpdateTwice(old(logicCache), mappingName, map[], entries.value);
      logicCache := logicCache[mappingName := entries.value];
      return Ok(());
    }

    /** `process_mapping`. */
    method ProcessMapping()
      modifies this`connectorsData
      ensures connectorsData == old(connectorsData)
        + ProcessAll(connectors, mappingNumber, mappingName, Assignment(transformationOrders, parallelGroups), logicCache)
    {
      var processConnectorWithLineage := Processor(mappingNumber, mappingName, Assignment(transformationOrders, parallelGroups), logicCache);
      connectorsData := AppendKept(connectors, processConnectorWithLineage, connectorsData);
    }

    /** The first four steps of `main`: the three fetches and the graph. */
    method FetchAndBuild() returns (r: Result<(), string>)
      requires mappingData.Dict?
      requires connectors == [] && transformations == [] && instances == []
      modifies this`connectors, this`transformations, this`instances, this`graph
      ensures r.Ok? <==>
        FetchConnectors(mappingData).Ok? && FetchAll(mappingData, "TRANSFORMATION").Ok? && FetchAll(mappingData, "INSTANCE").Ok?
        && LineageGraph(FetchAll(mappingData, "INSTANCE").value, FetchConnectors(mappingData).value).Ok?
      ensures r.Ok? ==>
        connectors == FetchConnectors(mappingData).value && transformations == FetchAll(mappingData, "TRANSFORMATION").value
        && instances == FetchAll(mappingData, "INSTANCE").value
        && graph == LineageGraph(instances, connectors).value && Valid(graph)
    {
      r := FetchAllConnectors();
      if r.Err? { return; }
      assert connectors == FetchConnectors(mappingData).value;
      r := FetchAllTransformations();
      if r.Err? { return; }
      assert transformations == FetchAll(mappingData, "TRANSFORMATION").value;
      r := FetchAllInstances();
      if r.Err? { return; }
      assert instances == FetchAll(mappingData, "INSTANCE").value;
      r := CreateBasicLineageGraph();
    }

    /** The last three steps of `main`: the orders (while the logic cache
        is still empty), then the logic cache and the connector records. */
    method OrderAndProcess() returns (r: Result<(), string>)
      requires mappingData.Dict? && Valid(graph)
      requires logicCache == map[] && connectorsData == []
      modifies this`transformationOrders, this`parallelGroups, this`logicCache, this`connectorsData
      ensures r.Ok? <==> LogicCacheOf(mappingData).Ok?
      ensures r.Ok? ==>
        Assignment(transformationOrders, parallelGroups) == TransformationOrder(graph, None)
        && logicCache == map[mappingName := LogicCacheOf(mappingData).value]
        && connectorsData == ProcessAll(connectors, mappingNumber, mappingName, Assignment(transformationOrders, parallelGroups), logicCache)
    {
      assert CacheNames(logicCache, mappingName) == None;
      CalculateTransformationOrder();
      r := CacheAndProcess();
    }

    /** The last two steps of `main`: the logic cache, then the connector
        records. */
    method CacheAndProcess() returns (r: Result<(), string>)
      requires mappingData.Dict?
      requires logicCache == map[] && connectorsData == []
      modifies this`logicCache, this`connectorsData
      ensures r.Ok? <==> LogicCacheOf(mappingData).Ok?
      ensures r.Ok? ==>
        logicCache == map[mappingName := LogicCacheOf(mappingData).value]
        && connectorsData == ProcessAll(connectors, mappingNumber, mappingName, Assignment(transformationOrders, parallelGroups), logicCache)
    {
      ghost var cache0 := logicCache;
      ghost var data0 := connectorsData;
      r := ExtractTransformationLogic();
      if r.Err? { return; }
      UpdateEmpty(cache0, mappingName, LogicCacheOf(mappingData).value);
      ProcessMapping();
      AppendEmpty(data0, ProcessAll(connectors, mappingNumber, mappingName, Assignment(transformationOrders, parallelGroups), logicCache));
    }

    /** `main`, run on a freshly constructed generator whose mapping exists:
      it succeeds exactly when every step does (`Generate` by
      `GenerateStages`), and then each field holds what its step computes
      from the ones before. */
    method Run() returns (r: Result<(), string>)
      requires mappingData.Dict?
      requires connectors == [] && transformations == [] && instances == [] && connectorsData == []
      requires logicCache == map[]
      modifies this`connectors, this`transformations, this`instances, this`graph
      modifies this`transformationOrders, this`parallelGroups, this`logicCache, this`connectorsData
      ensures r.Ok? <==>
        FetchConnectors(mappingData).Ok? && FetchAll(mappingData, "TRANSFORMATION").Ok? && FetchAll(mappingData, "INSTANCE").Ok?
        && LineageGraph(FetchAll(mappingData, "INSTANCE").value, FetchConnectors(mappingData).value).Ok?
        && LogicCacheOf(mappingData).Ok?
      ensures r.Ok? ==>
        connectors == FetchConnectors(mappingData).value
        && graph == LineageGraph(FetchAll(mappingData, "INSTANCE").value, connectors).value && Valid(graph)
        && Assignment(transformationOrders, parallelGroups) == TransformationOrder(graph, None)
        && logicCache == map[mappingName := LogicCacheOf(mappingData).value]
        && connectorsData == ProcessAll(connectors, mappingNumber, mappingName, Assignment(transformationOrders, parallelGroups), logicCache)
    {
      r := FetchAndBuild();
      if r.Ok? {
        r := OrderAndProcess();
      }
    }
  }

  /** Writing one key into an empty map. */
  lemma UpdateEmpty<K, V>(m: map<K, V>, k: K, v: V)
    requires m == map[]
    ensures m[k := v] == map[k := v]
  {
  }

  /** Appending to an empty list. */
  lemma AppendEmpty<T>(s: seq<T>, t: seq<T>)
    requires s == []
    ensures s + t == t
  {
  }

  /** A key written twice holds the second value. */
  lemma UpdateTwice<K, V>(m: map<K, V>, k: K, a: V, b: V)
    ensures m[k := a][k := b] == m[k := b]
  {
  }

  /** The component loop of `_calculate_transformation_order`: every weakly
      connected component in turn, each one's orders and labels merged in. */
  method AssignAllComponents(g: Graph) returns (orders: map<string, nat>, groups: map<string, string>)
    requires Valid(g)
    ensures Assignment(orders, groups) == TransformationOrder(g, None)
  {
    ComponentsWithin(g);
    var cs := WeakComponents(g);
    orders, groups := map[], map[];
    for i := 0 to |cs|
      invariant Assignment(orders, groups) == AssignFirst(g, cs, i)
    {
      var co, cg := CalculateComponentOrder(g, cs[i], i);
      orders := orders + co;
      groups := groups + cg;
    }
    AssignFirstMerges(g, cs, |cs|);
    assert ComponentAssignments(g, cs)[..|cs|] == ComponentAssignments(g, cs);
  }

  /** The body of the component loop of `_calculate_transformation_order`:
      a single node is isolated at order 0, a larger component goes through
      `_calculate_complex_order`. */
  method CalculateComponentOrder(g: Graph, c: set<string>, idx: nat) returns (orders: map<string, nat>, groups: map<string, string>)
    requires Valid(g) && c <= NodeSet(g) && c != {}
    ensures Assignment(orders, groups) == ComponentAssignment(g, c, idx)
  {
    var sub := Subgraph(g, c);
    SubgraphNonEmpty(g, c);
    if |c| == 1 {
      var node := sub.nodes[0];
      orders := map[node := 0];
      groups := map[node := IsolatedLabel(idx)];
    } else {
      orders, groups := CalculateComplexOrder(sub, idx);
    }
  }

  /** `_calculate_complex_order`, with cycles handled by the cycle breaker. */
  method CalculateComplexOrder(sub: Graph, idx: nat) returns (orders: map<string, nat>, groups: map<string, string>)
    requires Valid(sub)
    ensures Assignment(orders, groups) == ComplexOrder(sub, idx)
  {
    var sources := Sources(sub);
    var walk := WalkSub(sub);
    var levels := LevelsLoop(sub, sources, walk);
    assert levels == WalkLevels(sub, walk);
    var items := ItemsOf(walk, levels);
    var gs := IdentifyParallelGroups(sub, items);
    assert gs == WalkGroups(sub, walk);
    orders, groups := AssignLevels(walk, levels, gs, idx);
    LevelledOrderIs(sub, idx, walk, Assignment(orders, groups));
  }

  /** Step 1 of `_calculate_complex_order`: the topological order, or the
      cycle breaker's order when there is none. */
  method WalkSub(sub: Graph) returns (walk: seq<string>)
    requires Valid(sub)
    ensures walk == WalkOrder(sub)
  {
    var topo := TopoSort(sub);
    if topo.Some? {
      walk := topo.value;
    } else {
      walk := HandleCyclicGraph(sub);
    }
  }

  /** Step 4 of `_calculate_complex_order`: each node walked gets order
      `level + 1` and the label of the first parallel group that holds it,
      or `_single`. */
  method AssignLevels(walk: seq<string>, levels: map<string, nat>, gs: seq<seq<string>>, idx: nat)
    returns (orders: map<string, nat>, groups: map<string, string>)
    requires forall n | n in walk :: n in levels
    ensures forall n :: n in orders <==> n in walk
    ensures forall n :: n in groups <==> n in walk
    ensures forall n | n in orders :: orders[n] == levels[n] + 1
    ensures forall n | n in groups :: groups[n] == GroupLabel(idx, levels[n], FindGroup(gs, n))
  {
    orders := map[];
    groups := map[];
    for i := 0 to |walk|
      invariant forall n :: n in orders <==> n in walk[..i]
      invariant forall n :: n in groups <==> n in walk[..i]
      invariant forall n | n in orders :: orders[n] == levels[n] + 1
      invariant forall n | n in groups :: groups[n] == GroupLabel(idx, levels[n], FindGroup(gs, n))
    {
      var node := walk[i];
      var level := levels[node];
      assert walk[..i + 1] == walk[..i] + [walk[i]];
      orders := orders[node := level + 1];
      var gid := FindGroupIn(gs, node);
      if gid.Some? {
        groups := groups[node := LevelLabel(idx, level) + "_group_" + NatToString(gid.value)];
      } else {
        groups := groups[node := LevelLabel(idx, level) + "_single"];
      }
    }
    assert walk[..|walk|] == walk;
  }

  /** The `for group_id, nodes_in_group in ...: break / else` search for a
      node's group. */
  method FindGroupIn(gs: seq<seq<string>>, node: string) returns (gid: Option<nat>)
    ensures gid == FindGroup(gs, node)
  {
    var j := 0;
    while j < |gs|
      invariant 0 <= j <= |gs|
      invariant forall k | 0 <= k < j :: node !in gs[k]
    {
      if node in gs[j] {
        return Some(j);
      }
      j := j + 1;
    }
    return None;
  }

  /** The instance loop of `create_basic_lineage_graph`, with the node of
      each instance given by `nodeOf`. */
  method AddInstanceNodes(insts: seq<Value>, nodeOf: Value -> Result<string, string>) returns (r: Result<Graph, string>)
    ensures r.Ok? <==> MapAll(insts, nodeOf).Ok?
    ensures r.Ok? ==> r.value == AddNodes(Empty(), MapAll(insts, nodeOf).value)
  {
    var g := Empty();
    for i := 0 to |insts|
      invariant MapAll(insts[..i], nodeOf).Ok?
      invariant g == AddNodes(Empty(), MapAll(insts[..i], nodeOf).value)
    {
      MapAllPrefix(insts, i, nodeOf);
      var n := nodeOf(insts[i]);
      if n.Err? {
        MapAllSpec(insts, nodeOf);
        return Err(n.error);
      }
      AddNodesStep(Empty(), MapAll(insts[..i], nodeOf).value, n.value);
      g := AddNode(g, n.value);
    }
    assert insts[..|insts|] == insts;
    return Ok(g);
  }

  /** The connector loop of `create_basic_lineage_graph`, with the edge of
      each connector given by `edgeOf`. */
  method AddConnectorEdges(g: Graph, cs: seq<Value>, edgeOf: Value -> Result<Edge, string>) returns (r: Result<Graph, string>)
    ensures r.Ok? <==> MapAll(cs, edgeOf).Ok?
    ensures r.Ok? ==> r.value == AddEdges(g, MapAll(cs, edgeOf).value)
  {
    var h := g;
    for i := 0 to |cs|
      invariant MapAll(cs[..i], edgeOf).Ok?
      invariant h == AddEdges(g, MapAll(cs[..i], edgeOf).value)
    {
      MapAllPrefix(cs, i, edgeOf);
      var e := edgeOf(cs[i]);
      if e.Err? {
        MapAllSpec(cs, edgeOf);
        return Err(e.error);
      }
      AddEdgesStep(g, MapAll(cs[..i], edgeOf).value, e.value);
      h := AddEdge(h, e.value.src, e.value.dst);
    }
    assert cs[..|cs|] == cs;
    return Ok(h);
  }

  /** The fill of `_calculate_transformation_order`: each name the logic
      cache holds and the assignment lacks becomes unconnected at order 0. */
  method FillFromCache(orders0: map<string, nat>, groups0: map<string, string>, names: set<string>)
    returns (orders: map<string, nat>, groups: map<string, string>)
    requires orders0.Keys == groups0.Keys
    ensures Assignment(orders, groups) == FillUnconnected(Assignment(orders0, groups0), names)
  {
    orders, groups := orders0, groups0;
    var rest := names;
    while rest != {}
      invariant rest <= names
      invariant forall n :: n in orders <==> n in orders0 || (n in names && n !in rest)
      invariant forall n :: n in groups <==> n in orders0 || (n in names && n !in rest)
      invariant forall n | n in orders0 :: orders[n] == orders0[n] && groups[n] == groups0[n]
      invariant forall n | n in names && n !in rest && n !in orders0 :: orders[n] == 0 && groups[n] == "unconnected"
      decreases |rest|
    {
      var n :| n in rest;
      if n !in orders {
        orders := orders[n := 0];
        groups := groups[n := "unconnected"];
      }
      rest := rest - {n};
    }
    FillUnconnectedIs(Assignment(orders0, groups0), names, Assignment(orders, groups));
  }

  /** `InfaLineageGenerator(mapping_name, workflow_data)`: the lookup, an
      error when the mapping is not there, then `main`. */
  method NewGenerator(mappingName: string, workflowData: Value) returns (r: Result<InfaLineageGenerator, string>)
    ensures r.Ok? ==> fresh(r.value)
    ensures r.Ok? <==>
      var f := FindFrom(ExtractMappings(workflowData), mappingName, 0);
      f.Ok? && f.value.Some?
      && Generate(mappingName, f.value.value, ExtractMappings(workflowData)[f.value.value]).Ok?
    ensures r.Ok? ==>
      var f := FindFrom(ExtractMappings(workflowData), mappingName, 0);
      var l := Generate(mappingName, f.value.value, ExtractMappings(workflowData)[f.value.value]).value;
      r.value.mappingNumber == f.value.value && r.value.connectorsData == l.records
      && r.value.transformationOrders == l.assignment.orders && r.value.parallelGroups == l.assignment.groups
  {
    var g := new InfaLineageGenerator(mappingName, workflowData);
    if g.found.Err? {
      return Err(g.found.error);
    }
    if !g.mappingExists {
      return Err(NoSuchMapping);
    }
    var m := g.Run();
    if m.Err? {
      return Err(m.error);
    }
    return Ok(g);
  }
}
