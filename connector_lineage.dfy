/** The `PowerCenterLineage` of XMLify/connector_based_lineage.py: the
    connector-only lineage. It finds one mapping by name, builds a graph
    whose nodes are `<instance type>.<instance>.<field>` and whose edges are
    the mapping's connectors, and traces every target node back through its
    predecessors by depth-first search. */
module ConnectorLineage {
  import opened Wrappers
  import opened Text
  import opened Json
  import opened Seqs
  import opened Digraph

  // ---------------------------------------------------------------- _extract_mapping

  /** The `ValueError` raised when no mapping has the requested name. */
  const NotFound := "mapping not found"

  /** The mappings one folder element contributes: `'MAPPING' in f`, then
      `f['MAPPING']` kept when it is a list and wrapped otherwise. `in` on a
      string is a substring test and on a list a membership test, and the
      subscript that follows a hit raises on both; `in` on anything else
      raises. */
  function FolderMappings(f: Value): (r: Result<seq<Value>, string>) {
    match f
    case Dict(_) =>
      if !Has(f, "MAPPING") then Ok([])
      else
        var m := Get(f, "MAPPING").value;
        Ok(if m.List? then m.items else [m])
    case Str(s) => if Contains(s, "MAPPING") then Err(WrongShape) else Ok([])
    case List(items) => if Str("MAPPING") in items then Err(WrongShape) else Ok([])
    case _ => Err(WrongShape)
  }

  /** `mappings.extend(...)` over the folder elements, stopping at the
      first raise. */
  function MappingsOf(fs: seq<Value>): (r: Result<seq<Value>, string>)
    ensures r.Ok? <==> forall i | 0 <= i < |fs| :: FolderMappings(fs[i]).Ok?
    ensures r.Ok? ==> forall m | m in r.value :: exists i | 0 <= i < |fs| :: m in FolderMappings(fs[i]).value
  {
    if |fs| == 0 then Ok([])
    else
      var pre := fs[..|fs| - 1];
      assert forall i | 0 <= i < |pre| :: pre[i] == fs[i];
      match MappingsOf(pre)
      case Err(e) => Err(e)
      case Ok(ms) =>
        match FolderMappings(fs[|fs| - 1])
        case Err(e) => Err(e)
        case Ok(more) => Ok(ms + more)
  }

  lemma MappingsStep(fs: seq<Value>, i: nat)
    requires i < |fs|
    ensures MappingsOf(fs[..i + 1]) ==
      match MappingsOf(fs[..i])
      case Err(e) => Err(e)
      case Ok(ms) => match FolderMappings(fs[i]) case Err(e) => Err(e) case Ok(more) => Ok(ms + more)
  {
    assert fs[..i + 1][..i] == fs[..i];
  }

  /** Once the folders seen so far raise, the whole loop raises the same. */
  lemma {:induction false} MappingsErr(fs: seq<Value>, i: nat)
    requires i <= |fs| && MappingsOf(fs[..i]).Err?
    ensures MappingsOf(fs) == MappingsOf(fs[..i])
    decreases |fs| - i
  {
    if i < |fs| {
      MappingsStep(fs, i);
      MappingsErr(fs, i + 1);
    } else {
      assert fs[..i] == fs;
    }
  }

  /** `next((m for m in mappings if m.get('@NAME') == name), None)`: the
      first mapping with the name, where calling `.get` on a non-dict met
      before it raises; finding none is the `ValueError`. */
  function FindMapping(ms: seq<Value>, name: string): (r: Result<Value, string>)
    ensures r.Ok? ==> exists i | 0 <= i < |ms| ::
              ms[i] == r.value && r.value.Dict? && Get(r.value, "@NAME") == Some(Str(name))
              && forall j | 0 <= j < i :: ms[j].Dict? && Get(ms[j], "@NAME") != Some(Str(name))
    ensures r == Err(NotFound) <==> forall m | m in ms :: m.Dict? && Get(m, "@NAME") != Some(Str(name))
    decreases |ms|
  {
    if |ms| == 0 then Err(NotFound)
    else if !ms[0].Dict? then Err(WrongShape)
    else if Get(ms[0], "@NAME") == Some(Str(name)) then Ok(ms[0])
    else
      var r := FindMapping(ms[1..], name);
      assert forall j | 1 <= j < |ms| :: ms[1..][j - 1] == ms[j];
      assert forall m | m in ms :: m == ms[0] || m in ms[1..];
      r
  }

  /** `_extract_mapping`: `json['POWERMART']['REPOSITORY']['FOLDER']`, a
      folder dict standing for a one-element list, then the named mapping. */
  function ExtractOf(json: Value, name: string): (r: Result<Value, string>) {
    match Index(json, "POWERMART")
    case Err(e) => Err(e)
    case Ok(pm) =>
      match Index(pm, "REPOSITORY")
      case Err(e) => Err(e)
      case Ok(repo) =>
        match Index(repo, "FOLDER")
        case Err(e) => Err(e)
        case Ok(folder) =>
          match ElementsOf(folder)
          case Err(e) => Err(e)
          case Ok(fs) =>
            match MappingsOf(fs)
            case Err(e) => Err(e)
            case Ok(ms) => FindMapping(ms, name)
  }

  /** The mapping found is a dict carrying the requested name. */
  lemma ExtractNamed(json: Value, name: string)
    requires ExtractOf(json, name).Ok?
    ensures ExtractOf(json, name).value.Dict?
    ensures Get(ExtractOf(json, name).value, "@NAME") == Some(Str(name))
  {
  }

  /** A single folder dict holding a single mapping dict is found as if both
      were one-element lists. */
  lemma ExtractSingles(json: Value, name: string, folder: Value, m: Value)
    requires Index(json, "POWERMART").Ok? && Index(Index(json, "POWERMART").value, "REPOSITORY").Ok?
    requires Index(Index(Index(json, "POWERMART").value, "REPOSITORY").value, "FOLDER") == Ok(folder)
    requires folder.Dict? && Get(folder, "MAPPING") == Some(m)
    requires m.Dict? && Get(m, "@NAME") == Some(Str(name))
    ensures ExtractOf(json, name) == Ok(m)
  {
    assert FolderMappings(folder) == Ok([m]);
    assert [folder][..0] == [];
    assert MappingsOf([folder]) == Ok([] + [m]);
    assert [] + [m] == [m];
  }

  // ---------------------------------------------------------------- _build_lineage_graph

  /** The attributes `add_node` stores on a node. */
  datatype NodeInfo = NodeInfo(category: string, field: Value, instance: Value, instanceType: Value)

  /** The two nodes and the edge one usable connector adds. */
  datatype Link = Link(from: string, fromInfo: NodeInfo, to: string, toInfo: NodeInfo)

  /** The lineage graph: the `DiGraph` and its node attributes. */
  datatype NodeGraph = NodeGraph(graph: Graph, attrs: map<string, NodeInfo>)

  /** `source` for a Source Definition, `target` for a Target Definition,
      `transformation` for everything else. */
  function Category(instanceType: Value): (r: string) {
    if instanceType == Str("Source Definition") then "source"
    else if instanceType == Str("Target Definition") then "target"
    else "transformation"
  }

  /** `f"{instance_type}.{instance}.{field}"`. */
  function NodeId(instanceType: Value, instance: Value, field: Value): (r: string) {
    Stringify(instanceType) + "." + Stringify(instance) + "." + Stringify(field)
  }

  function InfoOf(instanceType: Value, instance: Value, field: Value): (r: NodeInfo) {
    NodeInfo(Category(instanceType), field, instance, instanceType)
  }

  /** A node named after its attributes, in the category of its type. */
  predicate Labelled(n: string, info: NodeInfo) {
    n == NodeId(info.instanceType, info.instance, info.field) && info.category == Category(info.instanceType)
  }

  /** One connector: skipped unless it is a dict with all six attributes
      present and truthy. */
  function LinkOf(c: Value): (r: Option<Link>)
    ensures r.Some? <==> (c.Dict? && Truthy(GetOr(c, "@FROMFIELD", Null)) && Truthy(GetOr(c, "@TOFIELD", Null))
                          && Truthy(GetOr(c, "@FROMINSTANCE", Null)) && Truthy(GetOr(c, "@TOINSTANCE", Null))
                          && Truthy(GetOr(c, "@FROMINSTANCETYPE", Null)) && Truthy(GetOr(c, "@TOINSTANCETYPE", Null)))
    ensures r.Some? ==> Labelled(r.value.from, r.value.fromInfo) && Labelled(r.value.to, r.value.toInfo)
    ensures r.Some? ==> (r.value.fromInfo.instance == GetOr(c, "@FROMINSTANCE", Null)
                         && r.value.toInfo.instance == GetOr(c, "@TOINSTANCE", Null)
                         && r.value.fromInfo.field == GetOr(c, "@FROMFIELD", Null)
                         && r.value.toInfo.field == GetOr(c, "@TOFIELD", Null))
  {
    if !c.Dict? then None
    else
      var fromField := GetOr(c, "@FROMFIELD", Null);
      var toField := GetOr(c, "@TOFIELD", Null);
      var fromInstance := GetOr(c, "@FROMINSTANCE", Null);
      var toInstance := GetOr(c, "@TOINSTANCE", Null);
      var fromType := GetOr(c, "@FROMINSTANCETYPE", Null);
      var toType := GetOr(c, "@TOINSTANCETYPE", Null);
      if !(Truthy(fromField) && Truthy(toField) && Truthy(fromInstance) && Truthy(toInstance)
           && Truthy(fromType) && Truthy(toType)) then None
      else Some(Link(NodeId(fromType, fromInstance, fromField), InfoOf(fromType, fromInstance, fromField),
                     NodeId(toType, toInstance, toField), InfoOf(toType, toInstance, toField)))
  }

  /** `mapping.get('CONNECTOR', [])`: a list is kept, any other truthy value
      is wrapped, a falsy one is nothing. */
  function ConnectorList(mapping: Value): (r: seq<Value>)
    ensures r == [] <==> !Has(mapping, "CONNECTOR") || !Truthy(Get(mapping, "CONNECTOR").value)
    ensures Has(mapping, "CONNECTOR") && !Get(mapping, "CONNECTOR").value.List? ==>
              |r| <= 1 && forall x | x in r :: Some(x) == Get(mapping, "CONNECTOR")
  {
    var c := GetOr(mapping, "CONNECTOR", List([]));
    if c.List? then c.items else if Truthy(c) then [c] else []
  }

  /** The usable connectors of a mapping, in order. */
  function LinksOf(mapping: Value): (r: seq<Link>) {
    FilterSome(ConnectorList(mapping), LinkOf)
  }

  /** `add_node(from)`, `add_node(to)`, `add_edge(from, to)`: a node added
      again takes the attributes given last. */
  function AddLink(ng: NodeGraph, k: Link): (r: NodeGraph) {
    var g := AddNode(AddNode(ng.graph, k.from), k.to);
    NodeGraph(AddEdge(g, k.from, k.to), ng.attrs[k.from := k.fromInfo][k.to := k.toInfo])
  }

  /** The graph the connector loop builds. */
  function GraphOf(links: seq<Link>): (r: NodeGraph) {
    if |links| == 0 then NodeGraph(Empty(), map[])
    else AddLink(GraphOf(links[..|links| - 1]), links[|links| - 1])
  }

  /** A graph whose attributed nodes are exactly its nodes, and no others. */
  predicate GraphOk(ng: NodeGraph) {
    Valid(ng.graph) && (forall n | n in ng.graph.nodes :: n in ng.attrs)
    && (forall n | n in ng.attrs :: n in ng.graph.nodes)
  }

  /** Every usable connector names its endpoints after their attributes. */
  ghost predicate AllLabelled(links: seq<Link>) {
    forall k | k in links :: Labelled(k.from, k.fromInfo) && Labelled(k.to, k.toInfo)
  }

  lemma LabelledPrefix(links: seq<Link>)
    requires |links| > 0 && AllLabelled(links)
    ensures AllLabelled(links[..|links| - 1])
  {
    assert forall x | x in links[..|links| - 1] :: x in links;
  }

  /** The built graph is well formed and every node carries the attributes
      it is named after. */
  lemma {:induction false} GraphOfOk(links: seq<Link>)
    requires AllLabelled(links)
    ensures GraphOk(GraphOf(links))
    ensures forall n | n in GraphOf(links).attrs :: Labelled(n, GraphOf(links).attrs[n])
  {
    if |links| > 0 {
      LabelledPrefix(links);
      GraphOfOk(links[..|links| - 1]);
      assert links[|links| - 1] in links;
      AddLinkOk(GraphOf(links[..|links| - 1]), links[|links| - 1]);
    }
  }

  lemma AddLinkOk(ng: NodeGraph, k: Link)
    requires GraphOk(ng) && forall n | n in ng.attrs :: Labelled(n, ng.attrs[n])
    requires Labelled(k.from, k.fromInfo) && Labelled(k.to, k.toInfo)
    ensures GraphOk(AddLink(ng, k))
    ensures forall n | n in AddLink(ng, k).attrs :: Labelled(n, AddLink(ng, k).attrs[n])
  {
    AddLinkNodes(ng, k);
    var r := AddLink(ng, k);
    assert Valid(AddNode(ng.graph, k.from));
    assert Valid(AddNode(AddNode(ng.graph, k.from), k.to));
    assert forall n | n in r.attrs :: n == k.from || n == k.to || n in ng.attrs;
    LabelledUpdate(ng.attrs, k.from, k.fromInfo);
    LabelledUpdate(ng.attrs[k.from := k.fromInfo], k.to, k.toInfo);
  }

  /** Giving a node the attributes it is named after keeps every node
      labelled. */
  lemma LabelledUpdate(m: map<string, NodeInfo>, n: string, info: NodeInfo)
    requires AttrsLabelled(m) && Labelled(n, info)
    ensures AttrsLabelled(m[n := info])
  {
  }

  predicate AttrsLabelled(m: map<string, NodeInfo>) {
    forall x | x in m :: Labelled(x, m[x])
  }

  lemma AddLinkNodes(ng: NodeGraph, k: Link)
    ensures forall n :: n in AddLink(ng, k).graph.nodes <==> n in ng.graph.nodes || n == k.from || n == k.to
  {
    var g := AddNode(AddNode(ng.graph, k.from), k.to);
    assert forall n :: n in g.nodes <==> n in ng.graph.nodes || n == k.from || n == k.to;
  }

  lemma AddLinkEdges(ng: NodeGraph, k: Link)
    ensures forall e :: e in AddLink(ng, k).graph.edges <==> e in ng.graph.edges || e == Edge(k.from, k.to)
  {
  }

  /** A link other than the last is a link of the prefix. */
  lemma InPrefix(links: seq<Link>, x: Link)
    requires |links| > 0 && x in links && x != links[|links| - 1]
    ensures x in links[..|links| - 1]
  {
    var i :| 0 <= i < |links| && links[i] == x;
    assert links[..|links| - 1][i] == x;
  }

  /** The nodes are exactly the connectors' endpoints. */
  lemma {:induction false} GraphOfNodes(links: seq<Link>)
    ensures forall n :: n in GraphOf(links).graph.nodes <==> exists k | k in links :: k.from == n || k.to == n
  {
    if |links| > 0 {
      var pre := links[..|links| - 1];
      var k := links[|links| - 1];
      GraphOfNodes(pre);
      AddLinkNodes(GraphOf(pre), k);
      assert k in links;
      forall n ensures n in GraphOf(links).graph.nodes <==> exists k' | k' in links :: k'.from == n || k'.to == n {
        if n in GraphOf(pre).graph.nodes {
          var k' :| k' in pre && (k'.from == n || k'.to == n);
          assert k' in links;
        }
        if exists k' | k' in links :: k'.from == n || k'.to == n {
          var k' :| k' in links && (k'.from == n || k'.to == n);
          if k' != k {
            InPrefix(links, k');
          }
        }
      }
    }
  }

  /** The edges are exactly the connectors, repeats collapsed. */
  lemma {:induction false} GraphOfEdges(links: seq<Link>)
    ensures forall u, v :: Edge(u, v) in GraphOf(links).graph.edges <==> exists k | k in links :: k.from == u && k.to == v
  {
    if |links| > 0 {
      var pre := links[..|links| - 1];
      var k := links[|links| - 1];
      GraphOfEdges(pre);
      AddLinkEdges(GraphOf(pre), k);
      assert k in links;
      forall u, v ensures Edge(u, v) in GraphOf(links).graph.edges <==> exists k' | k' in links :: k'.from == u && k'.to == v {
        if Edge(u, v) in GraphOf(pre).graph.edges {
          var k' :| k' in pre && k'.from == u && k'.to == v;
          assert k' in links;
        }
        if exists k' | k' in links :: k'.from == u && k'.to == v {
          var k' :| k' in links && k'.from == u && k'.to == v;
          if k' != k {
            InPrefix(links, k');
          }
        }
      }
    }
  }

  /** The usable connectors of a mapping are labelled. */
  lemma LinksLabelled(mapping: Value)
    ensures AllLabelled(LinksOf(mapping))
  {
    forall k | k in LinksOf(mapping) ensures Labelled(k.from, k.fromInfo) && Labelled(k.to, k.toInfo) {
      FilterSomeFrom(ConnectorList(mapping), LinkOf, k);
    }
  }

  /** The connector loop of `_build_lineage_graph`. */
  method AddLinks(cs: seq<Value>, step: Value -> Option<Link>) returns (ng: NodeGraph)
    ensures ng == GraphOf(FilterSome(cs, step))
  {
    ng := NodeGraph(Empty(), map[]);
    for i := 0 to |cs|
      invariant ng == GraphOf(FilterSome(cs[..i], step))
    {
      GraphOfStep(cs, i, step);
      var o := step(cs[i]);
      if o.Some? {
        ng := AddLink(ng, o.value);
      }
    }
    assert cs[..|cs|] == cs;
  }

  /** One more connector adds its link, if it has one. */
  lemma GraphOfStep(cs: seq<Value>, i: nat, step: Value -> Option<Link>)
    requires i < |cs|
    ensures step(cs[i]).None? ==> GraphOf(FilterSome(cs[..i + 1], step)) == GraphOf(FilterSome(cs[..i], step))
    ensures step(cs[i]).Some? ==>
      GraphOf(FilterSome(cs[..i + 1], step)) == AddLink(GraphOf(FilterSome(cs[..i], step)), step(cs[i]).value)
  {
    var pre := cs[..i];
    FilterSomeStep(pre, cs[i], step);
    assert cs[..i + 1] == pre + [cs[i]];
    if step(cs[i]).Some? {
      var links := FilterSome(pre, step);
      assert (links + [step(cs[i]).value])[..|links|] == links;
    }
  }

  /** `_build_lineage_graph`: the graph of the usable connectors and the
      mapping's `@NAME` (`Unknown` when absent). */
  method BuildLineageGraph(mapping: Value) returns (ng: NodeGraph, name: Value)
    requires mapping.Dict?
    ensures name == GetOr(mapping, "@NAME", Str("Unknown"))
    ensures ng == GraphOf(LinksOf(mapping))
  {
    name := GetOr(mapping, "@NAME", Str("Unknown"));
    ng := AddLinks(ConnectorList(mapping), LinkOf);
  }

  // ---------------------------------------------------------------- _trace_lineage

  /** One entry of a traced lineage. */
  datatype LineageEntry = LineageEntry(node: string, category: string, field: Value, instance: Value, instanceType: Value)

  function EntryOf(n: string, info: NodeInfo): (r: LineageEntry) {
    LineageEntry(n, info.category, info.field, info.instance, info.instanceType)
  }

  function Nodes(l: seq<LineageEntry>): (ns: seq<string>)
    ensures |ns| == |l| && forall k | 0 <= k < |l| :: ns[k] == l[k].node
  {
    seq(|l|, k requires 0 <= k < |l| => l[k].node)
  }

  /** `lineage` lists each visited node that has attributes, once, with
      those attributes. */
  ghost predicate Listed(ng: NodeGraph, visited: set<string>, lineage: seq<LineageEntry>) {
    Distinct(Nodes(lineage))
    && (forall k | 0 <= k < |lineage| :: lineage[k].node in ng.attrs && lineage[k] == EntryOf(lineage[k].node, ng.attrs[lineage[k].node]))
    && (forall n :: n in Nodes(lineage) <==> n in visited && n in ng.attrs)
  }

  /** Every visited node whose call has returned has had all its
      predecessors visited; `active` holds the nodes whose calls are still
      running. */
  ghost predicate Finished(ng: NodeGraph, visited: set<string>, active: set<string>) {
    forall v, u | v in visited && v !in active && v in ng.attrs && Edge(u, v) in ng.graph.edges :: u in visited
  }

  /** The search state: visited nodes are nodes that lead to `root`. */
  ghost predicate Searching(ng: NodeGraph, root: string, active: set<string>, visited: set<string>, lineage: seq<LineageEntry>) {
    (forall v | v in visited :: Path(ng.graph, v, root))
    && Finished(ng, visited, active)
    && Listed(ng, visited, lineage)
  }

  /** Every edge joins two nodes. */
  predicate EdgesWithin(g: Graph) {
    forall e | e in g.edges :: e.src in g.nodes && e.dst in g.nodes
  }

  lemma PathPrepend(g: Graph, u: string, v: string, w: string)
    requires Edge(u, v) in g.edges && Path(g, v, w)
    ensures Path(g, u, w)
  {
    var p :| IsPath(g, p) && p[0] == v && p[|p| - 1] == w;
    assert IsPath(g, [u] + p);
  }

  /** Sets closed under predecessors hold every node that leads into them. */
  lemma {:induction false} ClosedBack(g: Graph, c: set<string>, p: seq<string>)
    requires IsPath(g, p) && p[|p| - 1] in c
    requires forall v, u | v in c && Edge(u, v) in g.edges :: u in c
    ensures p[0] in c
    decreases |p|
  {
    if |p| > 1 {
      assert IsPath(g, p[1..]);
      ClosedBack(g, c, p[1..]);
      assert Edge(p[0], p[1]) in g.edges;
    }
  }

  /** Adding a node whose call starts keeps the search state. */
  lemma Enter(ng: NodeGraph, root: string, active: set<string>, visited: set<string>,
              lineage: seq<LineageEntry>, node: string)
    requires Searching(ng, root, active, visited, lineage)
    requires node in ng.graph.nodes && Path(ng.graph, node, root) && node !in visited
    ensures node in ng.attrs ==>
      Searching(ng, root, active + {node}, visited + {node}, lineage + [EntryOf(node, ng.attrs[node])])
    ensures node !in ng.attrs ==> Searching(ng, root, active, visited + {node}, lineage)
  {
    if node in ng.attrs {
      var l := lineage + [EntryOf(node, ng.attrs[node])];
      assert Nodes(l) == Nodes(lineage) + [node];
      assert node !in Nodes(lineage);
    }
  }

  /** A node whose predecessors are all visited leaves the active set. */
  lemma Leave(ng: NodeGraph, root: string, active: set<string>, visited: set<string>,
              lineage: seq<LineageEntry>, node: string)
    requires Searching(ng, root, active + {node}, visited, lineage)
    requires forall u | Edge(u, node) in ng.graph.edges :: u in visited
    ensures Searching(ng, root, active, visited, lineage)
  {
  }

  /** `dfs(node)`, threading the visited set and the lineage list through
      the calls. A node already visited is left alone; a node without
      attributes is marked and skipped; any other node is listed, then its
      predecessors are searched. */
  method Dfs(ng: NodeGraph, node: string, visited: set<string>, lineage: seq<LineageEntry>,
             ghost root: string, ghost active: set<string>)
    returns (visited': set<string>, lineage': seq<LineageEntry>)
    requires EdgesWithin(ng.graph) && node in ng.graph.nodes && Path(ng.graph, node, root)
    requires Searching(ng, root, active, visited, lineage)
    ensures Searching(ng, root, active, visited', lineage')
    ensures visited <= visited' && node in visited'
    ensures |lineage| > 0 ==> |lineage'| > 0 && lineage'[0] == lineage[0]
    ensures |lineage| == 0 && node !in visited && node in ng.attrs ==>
              |lineage'| > 0 && lineage'[0] == EntryOf(node, ng.attrs[node])
    decreases |NodeSet(ng.graph) - visited|, 2
  {
    if node in visited {
      return visited, lineage;
    }
    Enter(ng, root, active, visited, lineage, node);
    if node !in ng.attrs {
      return visited + {node}, lineage;
    }
    visited', lineage' := DfsPreds(ng, node, visited + {node}, lineage + [EntryOf(node, ng.attrs[node])],
                                   root, active, visited);
    Leave(ng, root, active, visited', lineage', node);
  }

  /** A predecessor of a node that leads to `root` is a node that leads
      there too, and the search below it has fewer nodes left to visit. */
  lemma Descend(g: Graph, node: string, u: string, root: string, entry: set<string>, visited: set<string>)
    requires EdgesWithin(g) && u in Preds(g, node) && Path(g, node, root)
    requires node in g.nodes && node !in entry && entry + {node} <= visited
    ensures u in g.nodes && Path(g, u, root)
    ensures |NodeSet(g) - visited| < |NodeSet(g) - entry|
  {
    PathPrepend(g, u, node, root);
    assert NodeSet(g) - visited < NodeSet(g) - entry by {
      assert node in NodeSet(g) - entry;
    }
    StrictSubsetCard(NodeSet(g) - visited, NodeSet(g) - entry);
  }

  /** `for predecessor in graph.predecessors(node): dfs(predecessor)`;
      `entry` is the visited set `dfs(node)` started from. */
  method DfsPreds(ng: NodeGraph, node: string, visited: set<string>, lineage: seq<LineageEntry>,
                  ghost root: string, ghost active: set<string>, ghost entry: set<string>)
    returns (visited': set<string>, lineage': seq<LineageEntry>)
    requires EdgesWithin(ng.graph) && node in ng.graph.nodes && Path(ng.graph, node, root)
    requires node !in entry && entry + {node} <= visited && |lineage| > 0
    requires Searching(ng, root, active + {node}, visited, lineage)
    ensures Searching(ng, root, active + {node}, visited', lineage')
    ensures visited <= visited'
    ensures forall u | u in Preds(ng.graph, node) :: u in visited'
    ensures |lineage'| > 0 && lineage'[0] == lineage[0]
    decreases |NodeSet(ng.graph) - entry|, 1
  {
    var preds := Preds(ng.graph, node);
    visited', lineage' := visited, lineage;
    for i := 0 to |preds|
      invariant Searching(ng, root, active + {node}, visited', lineage')
      invariant visited <= visited'
      invariant forall j | 0 <= j < i :: preds[j] in visited'
      invariant |lineage'| > 0 && lineage'[0] == lineage[0]
    {
      ghost var before := visited';
      visited', lineage' := DfsPred(ng, node, preds[i], visited', lineage', root, active, entry);
      Covered(preds, i, before, visited');
    }
    Covered(preds, |preds|, visited', visited');
  }

  /** The first `i` elements lie in `before`, and `after` grows it by the
      `i`-th: then the first `i + 1` lie in `after`, and so does every
      element once `i` reaches the end. */
  lemma Covered(xs: seq<string>, i: nat, before: set<string>, after: set<string>)
    requires i <= |xs| && before <= after
    requires forall j | 0 <= j < i :: xs[j] in before
    requires i < |xs| ==> xs[i] in after
    ensures forall j | 0 <= j < i + 1 && j < |xs| :: xs[j] in after
    ensures i == |xs| ==> forall x | x in xs :: x in after
  {
    if i == |xs| {
      forall x | x in xs ensures x in after {
        var j :| 0 <= j < |xs| && xs[j] == x;
      }
    }
  }

  /** One turn of that loop: `dfs(u)` for a predecessor `u` of `node`. */
  method DfsPred(ng: NodeGraph, node: string, u: string, visited: set<string>, lineage: seq<LineageEntry>,
                 ghost root: string, ghost active: set<string>, ghost entry: set<string>)
    returns (visited': set<string>, lineage': seq<LineageEntry>)
    requires EdgesWithin(ng.graph) && node in ng.graph.nodes && Path(ng.graph, node, root)
    requires u in Preds(ng.graph, node)
    requires node !in entry && entry + {node} <= visited && |lineage| > 0
    requires Searching(ng, root, active + {node}, visited, lineage)
    ensures Searching(ng, root, active + {node}, visited', lineage')
    ensures visited <= visited' && u in visited'
    ensures |lineage'| > 0 && lineage'[0] == lineage[0]
    decreases |NodeSet(ng.graph) - entry|, 0
  {
    Descend(ng.graph, node, u, root, entry, visited);
    visited', lineage' := Dfs(ng, u, visited, lineage, root, active + {node});
  }

  /** What `_trace_lineage` returns for `target`: every node that leads to
      the target, each once, with its attributes, the target itself last. */
  ghost predicate Traced(ng: NodeGraph, target: string, l: seq<LineageEntry>) {
    Distinct(Nodes(l))
    && (forall k | 0 <= k < |l| :: l[k].node in ng.attrs && l[k] == EntryOf(l[k].node, ng.attrs[l[k].node]))
    && (forall n :: n in Nodes(l) <==> Path(ng.graph, n, target))
    && |l| > 0 && l[|l| - 1].node == target
  }

  /** A node that leads somewhere is a node. */
  lemma PathStartsAtNode(g: Graph, n: string, target: string)
    requires EdgesWithin(g) && target in g.nodes && Path(g, n, target)
    ensures n in g.nodes
  {
    var p :| IsPath(g, p) && p[0] == n && p[|p| - 1] == target;
    if |p| > 1 {
      assert Edge(p[0], p[1]) in g.edges;
    }
  }

  /** `_trace_lineage`: the search from the target, reversed so that the
      target comes last. */
  method TraceLineage(ng: NodeGraph, target: string) returns (r: seq<LineageEntry>)
    requires GraphOk(ng) && target in ng.graph.nodes
    ensures Traced(ng, target, r)
  {
    assert IsPath(ng.graph, [target]);
    var visited, lineage := Dfs(ng, target, {}, [], target, {});
    SearchDone(ng, target, visited, lineage);
    r := Reversed(lineage);
    ReversedNodes(lineage);
  }

  /** A finished search from `target` has listed exactly the nodes that
      lead to it. */
  lemma SearchDone(ng: NodeGraph, target: string, visited: set<string>, lineage: seq<LineageEntry>)
    requires GraphOk(ng) && target in ng.graph.nodes && target in visited
    requires Searching(ng, target, {}, visited, lineage)
    ensures forall n :: n in Nodes(lineage) <==> Path(ng.graph, n, target)
  {
    forall v | v in visited ensures v in ng.attrs {
      PathStartsAtNode(ng.graph, v, target);
    }
    forall n | Path(ng.graph, n, target) ensures n in visited && n in ng.attrs {
      var p :| IsPath(ng.graph, p) && p[0] == n && p[|p| - 1] == target;
      ClosedBack(ng.graph, visited, p);
    }
  }

  /** Reversing the lineage keeps its nodes and their distinctness, and
      puts its first entry last. */
  lemma ReversedNodes(l: seq<LineageEntry>)
    ensures forall n :: n in Nodes(Reversed(l)) <==> n in Nodes(l)
    ensures Distinct(Nodes(l)) ==> Distinct(Nodes(Reversed(l)))
    ensures |l| > 0 ==> Reversed(l)[|l| - 1] == l[0]
  {
    var r := Reversed(l);
    forall n ensures n in Nodes(r) <==> n in Nodes(l) {
      if n in Nodes(l) {
        var k :| 0 <= k < |l| && Nodes(l)[k] == n;
        assert Nodes(r)[|l| - 1 - k] == n;
      }
      if n in Nodes(r) {
        var k :| 0 <= k < |r| && Nodes(r)[k] == n;
        assert Nodes(l)[|l| - 1 - k] == n;
      }
    }
    if Distinct(Nodes(l)) {
      forall i, j | 0 <= i < j < |r| ensures Nodes(r)[i] != Nodes(r)[j] {
        assert Nodes(r)[i] == Nodes(l)[|l| - 1 - i];
        assert Nodes(r)[j] == Nodes(l)[|l| - 1 - j];
      }
    }
  }

  // ---------------------------------------------------------------- generate_lineage

  /** One traced target field. */
  datatype TargetLineage = TargetLineage(mapping: Value, targetField: Value, targetInstance: Value,
                                         lineage: seq<LineageEntry>)

  /** The graph's nodes in the `target` category, in node order. */
  function TargetNodes(ng: NodeGraph): (ts: seq<string>)
    ensures forall t | t in ts :: t in ng.graph.nodes && t in ng.attrs && ng.attrs[t].category == "target"
    ensures forall n | n in ng.graph.nodes && n in ng.attrs && ng.attrs[n].category == "target" :: n in ts
  {
    Where(ng.graph.nodes, (n: string) => n in ng.attrs && ng.attrs[n].category == "target")
  }

  /** `after` is `before` followed by one entry per target node of the
      mapping's graph, each naming its mapping, field and instance and
      holding that target's trace. */
  ghost predicate Generated(mapping: Value, before: seq<TargetLineage>, after: seq<TargetLineage>) {
    |before| <= |after| && after[..|before|] == before
    && TargetEntries(GraphOf(LinksOf(mapping)), GetOr(mapping, "@NAME", Str("Unknown")),
                     TargetNodes(GraphOf(LinksOf(mapping))), after[|before|..])
  }

  /** The per-target entries of one mapping. */
  ghost predicate TargetEntries(ng: NodeGraph, name: Value, ts: seq<string>, entries: seq<TargetLineage>)
    requires forall t | t in ts :: t in ng.attrs
  {
    |entries| == |ts|
    && forall k | 0 <= k < |ts| ::
         entries[k].mapping == name
         && entries[k].targetField == ng.attrs[ts[k]].field && entries[k].targetInstance == ng.attrs[ts[k]].instance
         && Traced(ng, ts[k], entries[k].lineage)
  }

  /** The target loop of `generate_lineage`: trace each target and keep the
      traces that are not empty. */
  method TraceTargets(ng: NodeGraph, name: Value, targets: seq<string>) returns (entries: seq<TargetLineage>)
    requires GraphOk(ng) && forall t | t in targets :: t in ng.graph.nodes
    ensures TargetEntries(ng, name, targets, entries)
  {
    entries := [];
    for k := 0 to |targets|
      invariant TargetEntries(ng, name, targets[..k], entries)
    {
      assert targets[k] in targets;
      var lineage := TraceLineage(ng, targets[k]);
      if |lineage| > 0 {
        var info := ng.attrs[targets[k]];
        entries := entries + [TargetLineage(name, info.field, info.instance, lineage)];
      }
      assert forall j | 0 <= j < k + 1 :: targets[..k + 1][j] == targets[j];
      assert forall j | 0 <= j < k :: targets[..k][j] == targets[j];
    }
    assert targets[..|targets|] == targets;
  }

  /** The part of `generate_lineage` after the mapping is found: build its
      graph and trace each of its target nodes. */
  method MappingLineage(mapping: Value) returns (entries: seq<TargetLineage>)
    requires mapping.Dict?
    ensures Generated(mapping, [], entries)
  {
    var ng, name := BuildLineageGraph(mapping);
    LinksLabelled(mapping);
    GraphOfOk(LinksOf(mapping));
    entries := TraceTargets(ng, name, TargetNodes(ng));
    assert entries[0..] == entries;
  }

  /** What one run of `generate_lineage` does to the recorded lineage
      `before`, given what the search for the mapping found: an error is
      returned with nothing recorded; otherwise the mapping's lineage is
      appended. */
  ghost predicate Recorded(found: Result<Value, string>, before: seq<TargetLineage>,
                           r: Result<(), string>, after: seq<TargetLineage>) {
    (r.Err? <==> found.Err?)
    && (r.Err? ==> after == before && r.error == found.error)
    && (r.Ok? ==> Generated(found.value, before, after))
  }

  /** `generate_lineage` once `_extract_mapping` has answered `found`. */
  method GenerateFrom(found: Result<Value, string>, before: seq<TargetLineage>)
    returns (r: Result<(), string>, after: seq<TargetLineage>)
    requires found.Ok? ==> found.value.Dict?
    ensures Recorded(found, before, r, after)
  {
    if found.Err? {
      return Err(found.error), before;
    }
    var entries := MappingLineage(found.value);
    assert (before + entries)[..|before|] == before;
    assert (before + entries)[|before|..] == entries;
    return Ok(()), before + entries;
  }

  class PowerCenterLineage {
    var jsonData: Value
    var mappingName: string
    var lineageData: seq<TargetLineage>

    /** The loaded document (reading the file is not modelled), the name
        of the mapping to trace, and no lineage yet. */
    constructor (json: Value, name: string)
      ensures jsonData == json && mappingName == name && lineageData == []
    {
      jsonData := json;
      mappingName := name;
      lineageData := [];
    }

    /** `_extract_mapping`, with its folder loop and its search. */
    method ExtractMapping() returns (r: Result<Value, string>)
      ensures r == ExtractOf(jsonData, mappingName)
    {
      var pm := Index(jsonData, "POWERMART");
      if pm.Err? { return Err(pm.error); }
      var repo := Index(pm.value, "REPOSITORY");
      if repo.Err? { return Err(repo.error); }
      var folder := Index(repo.value, "FOLDER");
      if folder.Err? { return Err(folder.error); }
      var fs := ElementsOf(folder.value);
      if fs.Err? { return Err(fs.error); }
      var folders := fs.value;
      var mappings: seq<Value> := [];
      for i := 0 to |folders|
        invariant MappingsOf(folders[..i]) == Ok(mappings)
      {
        MappingsStep(folders, i);
        var more := FolderMappings(folders[i]);
        if more.Err? {
          MappingsErr(folders, i + 1);
          return Err(more.error);
        }
        mappings := mappings + more.value;
      }
      assert folders[..|folders|] == folders;
      var k := 0;
      while k < |mappings|
        invariant k <= |mappings| && FindMapping(mappings[k..], mappingName) == FindMapping(mappings, mappingName)
      {
        var m := mappings[k];
        if !m.Dict? {
          return Err(WrongShape);
        }
        if Get(m, "@NAME") == Some(Str(mappingName)) {
          return Ok(m);
        }
        assert mappings[k..][1..] == mappings[k + 1..];
        k := k + 1;
      }
      return Err(NotFound);
    }

    /** `generate_lineage`: an error finding the mapping escapes with
        nothing recorded; otherwise every target node of the mapping's
        graph is traced and recorded, since its trace always holds at
        least the target itself. */
    method GenerateLineage() returns (r: Result<(), string>)
      modifies this
      ensures jsonData == old(jsonData) && mappingName == old(mappingName)
      ensures Recorded(ExtractOf(jsonData, mappingName), old(lineageData), r, lineageData)
    {
      var found := ExtractMapping();
      if found.Ok? {
        ExtractNamed(jsonData, mappingName);
      }
      r, lineageData := GenerateFrom(found, lineageData);
    }
  }
}
