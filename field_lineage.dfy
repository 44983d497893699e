/** `FixedInformaticaLineageFramework` of XMLify/fixed_lineage_maker.py: the
    collections `parse_mapping` fills, the lookups over them, and the
    depth-bounded backward breadth-first trace from a target field to its
    sources. Each method is proved against the functions of `FieldModel`. */
module FieldLineage {
  import opened Wrappers
  import opened Text
  import opened Json
  import opened Seqs
  import opened Sorting
  import opened FieldModel
  import opened Walks

  /** `_parse_transformation`, with its field loop and its attribute loop. */
  method ParseTransformation(td: Value) returns (r: Result<Transformation, string>)
    ensures r == TransformationOf(td)
  {
    var name := StrAt(td, "@NAME");
    var kind := StrAt(td, "@TYPE");
    var desc := StrOr(td, "@DESCRIPTION", "");
    if name.Err? || kind.Err? || desc.Err? {
      return Err(WrongShape);
    }
    var fxs := FieldElements(td);
    if fxs.Err? {
      return Err(WrongShape);
    }
    var fields := ParseFields(fxs.value, FieldOf);
    if fields.Err? {
      return Err(WrongShape);
    }
    var axs := AttributeElements(td);
    if axs.Err? {
      return Err(WrongShape);
    }
    var attributes := ParseAttributes(axs.value, AttributeOf);
    if attributes.Err? {
      return Err(WrongShape);
    }
    return Ok(Transformation(name.value, kind.value, desc.value, fields.value, attributes.value));
  }

  /** The field loop, with the reading of one field given by `step`. */
  method ParseFields(xs: seq<Value>, step: Value -> Result<TransformationField, string>)
    returns (r: Result<seq<TransformationField>, string>)
    ensures r.Ok? <==> MapAll(xs, step).Ok?
    ensures r.Ok? ==> r.value == MapAll(xs, step).value
  {
    var fields: seq<TransformationField> := [];
    for i := 0 to |xs|
      invariant MapAll(xs[..i], step) == Ok(fields)
    {
      MapAllPrefix(xs, i, step);
      var f := step(xs[i]);
      if f.Err? {
        MapAllSpec(xs, step);
        return Err(f.error);
      }
      fields := fields + [f.value];
    }
    assert xs[..|xs|] == xs;
    return Ok(fields);
  }

  /** The attribute loop: `attrs[name] = value` per element, with the
      reading of one element given by `step`. */
  method ParseAttributes(xs: seq<Value>, step: Value -> Result<(string, string), string>)
    returns (r: Result<map<string, string>, string>)
    ensures r.Ok? <==> MapAll(xs, step).Ok?
    ensures r.Ok? ==> r.value == Store(map[], MapAll(xs, step).value)
  {
    var attributes: map<string, string> := map[];
    for i := 0 to |xs|
      invariant MapAll(xs[..i], step).Ok?
      invariant attributes == Store(map[], MapAll(xs[..i], step).value)
    {
      MapAllPrefix(xs, i, step);
      var a := step(xs[i]);
      if a.Err? {
        MapAllSpec(xs, step);
        return Err(a.error);
      }
      StoreStep(map[], MapAll(xs[..i], step).value, a.value);
      attributes := attributes[a.value.0 := a.value.1];
    }
    assert xs[..|xs|] == xs;
    return Ok(attributes);
  }

  /** The loop of `build_reverse_graph`: `graph[to][field].append(conn)`. */
  method ReverseGraph(cs: seq<Connection>) returns (g: map<string, map<string, seq<Connection>>>)
    ensures ReverseGraphOf(g, cs)
  {
    g := map[];
    for k := 0 to |cs|
      invariant ReverseGraphOf(g, cs[..k])
    {
      ReverseGraphStep(g, cs[..k], cs[k]);
      assert cs[..k + 1] == cs[..k] + [cs[k]];
      g := Added(g, cs[k]);
    }
    assert cs[..|cs|] == cs;
  }

  /** The field loop of `get_transformation_logic`, which stops at the
      first field of that name with an expression. */
  method FindExpression(fields: seq<TransformationField>, name: string) returns (r: Option<TransformationField>)
    ensures r == FirstExpression(fields, name)
  {
    for k := 0 to |fields|
      invariant FirstExpression(fields, name) == FirstExpression(fields[k..], name)
    {
      if fields[k].name == name && |fields[k].expression| > 0 {
        return Some(fields[k]);
      }
      assert fields[k..][1..] == fields[k + 1..];
    }
    return None;
  }

  /** The field loop of `_get_field_datatype`, which stops at the first
      field of that name. */
  method FindField(fields: seq<TransformationField>, name: string) returns (r: Option<TransformationField>)
    ensures r == FirstNamed(fields, name)
  {
    for k := 0 to |fields|
      invariant FirstNamed(fields, name) == FirstNamed(fields[k..], name)
    {
      if fields[k].name == name {
        return Some(fields[k]);
      }
      assert fields[k..][1..] == fields[k + 1..];
    }
    return None;
  }

  // ------------------------------------------------- the walk of trace_lineage

  /** `is_lineage_source(current_instance)`: the walk goes no further at a
      source, nor where the test raises. */
  function SourceStop(p: Parsed): (r: Pending -> bool) {
    (e: Pending) => Halts(p, e.instance)
  }

  /** The three successor rules of the loop body. */
  function SuccessorRule(p: Parsed): (r: Pending -> seq<Pending>) {
    (e: Pending) => Successors(p, e)
  }

  /** The record appended at a source, or the raise of the source test. */
  function TraceRecord(p: Parsed, targetInstance: string, targetField: string, e: Pending): (r: Result<LineageRecord, string>)
    ensures r.Err? <==> SourceTest(p, e.instance).Err?
    ensures r.Ok? ==> r.value == RecordOf(p, targetInstance, targetField, e)
  {
    match SourceTest(p, e.instance)
    case Err(m) => Err(m)
    case Ok(_) => Ok(RecordOf(p, targetInstance, targetField, e))
  }

  function RecordRule(p: Parsed, targetInstance: string, targetField: string): (r: Pending -> Result<LineageRecord, string>) {
    (e: Pending) => TraceRecord(p, targetInstance, targetField, e)
  }

  /** The entries the rules derive from the target. */
  ghost function Reached(p: Parsed, targetInstance: string, targetField: string): (r: Pending -> bool) {
    (e: Pending) => WellFormed(targetInstance, targetField, e) && Derived(p, Start(targetInstance, targetField), e)
  }

  /** The walk `trace_lineage` performs. */
  ghost function TraceSpec(p: Parsed, targetInstance: string, targetField: string, maxDepth: int): (r: WalkSpec<Result<LineageRecord, string>>) {
    WalkSpec(Start(targetInstance, targetField), maxDepth, SourceStop(p), SuccessorRule(p),
             RecordRule(p, targetInstance, targetField), VisitKey, Reached(p, targetInstance, targetField),
             {(targetInstance, targetField)} + Pairs(p))
  }

  /** The rules keep to derived, well-formed entries, whose pairs are finitely many. */
  lemma TraceClosed(p: Parsed, targetInstance: string, targetField: string, maxDepth: int)
    ensures Closed(TraceSpec(p, targetInstance, targetField, maxDepth))
  {
    var sp := TraceSpec(p, targetInstance, targetField, maxDepth);
    forall e | sp.ok(e) ensures (e.instance, e.field) in sp.pairs && forall s | s in sp.next(e) :: sp.ok(s) {
      DerivedPairs(p, Start(targetInstance, targetField), e);
      SuccessorFacts(p, targetInstance, targetField, e);
    }
  }

  /** A non-source target instance that nothing enters is never left. */
  lemma TraceStays(p: Parsed, targetInstance: string, targetField: string, maxDepth: int)
    requires !Halts(p, targetInstance) && !HasIncoming(p.connections, targetInstance)
    ensures Stays(TraceSpec(p, targetInstance, targetField, maxDepth))
  {
    var sp := TraceSpec(p, targetInstance, targetField, maxDepth);
    forall e | sp.ok(e) && e.instance == targetInstance
      ensures !sp.stops(e) && forall s | s in sp.next(e) :: s.instance == targetInstance
    {
      SuccessorFacts(p, targetInstance, targetField, e);
    }
  }

  /** No instance name the rules can reach holds a '.', so the visited key
      `instance.field.depth` tells entries apart. */
  predicate DotFree(p: Parsed, targetInstance: string) {
    '.' !in targetInstance
    && (forall c | c in p.connections :: '.' !in c.fromInstance)
    && (forall n | n in p.transformations :: '.' !in n)
  }

  lemma PairsDotFree(p: Parsed, targetInstance: string, targetField: string, maxDepth: int)
    requires DotFree(p, targetInstance)
    ensures forall pr | pr in TraceSpec(p, targetInstance, targetField, maxDepth).pairs :: '.' !in pr.0
  {
    forall pr | pr in Pairs(p) ensures '.' !in pr.0 {
      if pr !in (set c | c in p.connections :: (c.fromInstance, c.fromField)) {
        var n, f :| n in p.transformations && f in p.transformations[n].fields && pr == (n, f.name);
      }
    }
  }

  /** Entries of one slot enqueue successors of the same visited keys. */
  lemma SlotSuccessorKeys(p: Parsed, targetInstance: string, targetField: string, maxDepth: int, a: Pending, b: Pending)
    requires SameSlot(a, b)
    ensures var sp := TraceSpec(p, targetInstance, targetField, maxDepth);
      TakenKeys(sp, sp.next(a)) <= TakenKeys(sp, sp.next(b))
  {
    var sp := TraceSpec(p, targetInstance, targetField, maxDepth);
    SuccessorsAlike(p, a, b);
    forall k | k in TakenKeys(sp, sp.next(a)) ensures k in TakenKeys(sp, sp.next(b)) {
      var s :| s in sp.next(a) && KeyOf(sp, s) == k;
      var t :| t in Successors(p, b) && SameSlot(s, t);
      assert KeyOf(sp, t) == k;
    }
  }

  /** With dot-free instance names, entries of one visited key are alike to the walk. */
  lemma TraceCoherent(p: Parsed, targetInstance: string, targetField: string, maxDepth: int)
    requires DotFree(p, targetInstance)
    ensures Coherent(TraceSpec(p, targetInstance, targetField, maxDepth))
  {
    var sp := TraceSpec(p, targetInstance, targetField, maxDepth);
    forall a: Pending, b: Pending | (a.instance, a.field) in sp.pairs && (b.instance, b.field) in sp.pairs && KeyOf(sp, a) == KeyOf(sp, b)
      ensures sp.stops(a) == sp.stops(b) && a.depth == b.depth && TakenKeys(sp, sp.next(a)) <= TakenKeys(sp, sp.next(b))
    {
      KeySlot(p, targetInstance, targetField, maxDepth, a, b);
      SlotSuccessorKeys(p, targetInstance, targetField, maxDepth, a, b);
    }
  }

  /** `c` follows the three rules back from the target, through instances
      that are not sources, within `maxDepth` levels. */
  predicate TraceChain(p: Parsed, targetInstance: string, targetField: string, maxDepth: int, c: seq<Pending>) {
    |c| > 0 && c[0] == Start(targetInstance, targetField)
    && (forall i | 0 <= i < |c| :: c[i].depth <= maxDepth)
    && (forall i | 0 <= i < |c| - 1 :: !Halts(p, c[i].instance) && c[i + 1] in Successors(p, c[i]))
  }

  /** The end of such a path had its instance, field and level expanded,
      and, at a source, emitted. */
  predicate ChainCovered(p: Parsed, e: Pending, emitted: seq<Pending>, expanded: seq<Pending>) {
    (exists x | x in expanded :: SameSlot(x, e))
    && (Halts(p, e.instance) ==> exists x | x in emitted :: SameSlot(x, e))
  }

  /** Two entries at pairs of the key space, with one visited key, share their slot. */
  lemma KeySlot(p: Parsed, targetInstance: string, targetField: string, maxDepth: int, x: Pending, e: Pending)
    requires DotFree(p, targetInstance)
    requires var pairs := TraceSpec(p, targetInstance, targetField, maxDepth).pairs;
      (x.instance, x.field) in pairs && (e.instance, e.field) in pairs
    requires VisitKey(x.instance, x.field, x.depth) == VisitKey(e.instance, e.field, e.depth)
    ensures SameSlot(x, e)
  {
    PairsDotFree(p, targetInstance, targetField, maxDepth);
    VisitKeyInjective(x.instance, x.field, x.depth, e.instance, e.field, e.depth);
  }

  lemma TraceChainIsChain(p: Parsed, targetInstance: string, targetField: string, maxDepth: int, c: seq<Pending>)
    requires TraceChain(p, targetInstance, targetField, maxDepth, c)
    ensures Chain(TraceSpec(p, targetInstance, targetField, maxDepth), c)
  {
  }

  lemma TraceReachesExpanded(p: Parsed, targetInstance: string, targetField: string, maxDepth: int,
                              records: seq<Result<LineageRecord, string>>, emitted: seq<Pending>, expanded: seq<Pending>, c: seq<Pending>)
    requires WalkPost(TraceSpec(p, targetInstance, targetField, maxDepth), records, emitted, expanded)
    requires DotFree(p, targetInstance) && TraceChain(p, targetInstance, targetField, maxDepth, c)
    ensures exists x | x in expanded :: SameSlot(x, c[|c| - 1])
  {
    var sp := TraceSpec(p, targetInstance, targetField, maxDepth);
    var last := c[|c| - 1];
    TraceClosed(p, targetInstance, targetField, maxDepth);
    TraceCoherent(p, targetInstance, targetField, maxDepth);
    TraceChainIsChain(p, targetInstance, targetField, maxDepth, c);
    ChainReached(sp, records, emitted, expanded, c);
    var x :| x in expanded && KeyOf(sp, x) == KeyOf(sp, last);
    assert (x.instance, x.field) in sp.pairs && (last.instance, last.field) in sp.pairs;
    KeySlot(p, targetInstance, targetField, maxDepth, x, last);
  }

  lemma TraceReachesEmitted(p: Parsed, targetInstance: string, targetField: string, maxDepth: int,
                             records: seq<Result<LineageRecord, string>>, emitted: seq<Pending>, expanded: seq<Pending>, c: seq<Pending>)
    requires WalkPost(TraceSpec(p, targetInstance, targetField, maxDepth), records, emitted, expanded)
    requires DotFree(p, targetInstance) && TraceChain(p, targetInstance, targetField, maxDepth, c)
    requires Halts(p, c[|c| - 1].instance)
    ensures exists x | x in emitted :: SameSlot(x, c[|c| - 1])
  {
    var sp := TraceSpec(p, targetInstance, targetField, maxDepth);
    var last := c[|c| - 1];
    TraceClosed(p, targetInstance, targetField, maxDepth);
    TraceCoherent(p, targetInstance, targetField, maxDepth);
    TraceChainIsChain(p, targetInstance, targetField, maxDepth, c);
    ChainReached(sp, records, emitted, expanded, c);
    var y :| y in emitted && KeyOf(sp, y) == KeyOf(sp, last);
    assert y in expanded;
    assert (y.instance, y.field) in sp.pairs && (last.instance, last.field) in sp.pairs;
    KeySlot(p, targetInstance, targetField, maxDepth, y, last);
  }

  /** Completeness of `trace_lineage` when instance names hold no '.'. */
  lemma TraceComplete(p: Parsed, targetInstance: string, targetField: string, maxDepth: int,
                      records: seq<Result<LineageRecord, string>>, emitted: seq<Pending>, expanded: seq<Pending>, c: seq<Pending>)
    requires WalkPost(TraceSpec(p, targetInstance, targetField, maxDepth), records, emitted, expanded)
    requires DotFree(p, targetInstance) && TraceChain(p, targetInstance, targetField, maxDepth, c)
    ensures ChainCovered(p, c[|c| - 1], emitted, expanded)
  {
    TraceReachesExpanded(p, targetInstance, targetField, maxDepth, records, emitted, expanded, c);
    if Halts(p, c[|c| - 1].instance) {
      TraceReachesEmitted(p, targetInstance, targetField, maxDepth, records, emitted, expanded, c);
    }
  }

  /** The walk's closure, in the visited keys of `trace_lineage`. */
  lemma TraceEdges(p: Parsed, targetInstance: string, targetField: string, maxDepth: int,
                   records: seq<Result<LineageRecord, string>>, emitted: seq<Pending>, expanded: seq<Pending>)
    requires WalkPost(TraceSpec(p, targetInstance, targetField, maxDepth), records, emitted, expanded)
    ensures forall e, s | e in expanded && !Halts(p, e.instance) && s in Successors(p, e) && s.depth <= maxDepth ::
              exists x | x in expanded :: VisitKey(x.instance, x.field, x.depth) == VisitKey(s.instance, s.field, s.depth)
  {
    var sp := TraceSpec(p, targetInstance, targetField, maxDepth);
    forall e, s | e in expanded && !Halts(p, e.instance) && s in Successors(p, e) && s.depth <= maxDepth
      ensures exists x | x in expanded :: VisitKey(x.instance, x.field, x.depth) == VisitKey(s.instance, s.field, s.depth)
    {
      assert !sp.stops(e) && s in sp.next(e);
      assert KeyOf(sp, s) in TakenKeys(sp, expanded);
    }
  }

  /** The records and the expanded entries: every record is the record of
      an entry the rules derive from the target within `maxDepth` levels,
      at a source (or the raise of the source test there), and every
      expanded entry at a source gives one; no key is expanded twice; and
      the target is expanded unless `maxDepth` is negative. */
  ghost predicate TraceRecords(p: Parsed, targetInstance: string, targetField: string, maxDepth: int,
                               records: seq<Result<LineageRecord, string>>, emitted: seq<Pending>, expanded: seq<Pending>) {
    var init := Start(targetInstance, targetField);
    |records| == |emitted|
    && (forall k | 0 <= k < |emitted| ::
          records[k] == TraceRecord(p, targetInstance, targetField, emitted[k])
          && emitted[k] in expanded && Halts(p, emitted[k].instance))
    && (forall e | e in expanded :: WellFormed(targetInstance, targetField, e) && e.depth <= maxDepth && Derived(p, init, e))
    && UniqueKeys(expanded, VisitKey)
    && (forall e | e in expanded && Halts(p, e.instance) :: e in emitted)
    && (maxDepth >= 0 ==> init in expanded)
  }

  /** Every successor within the bound of an expanded non-source entry has
      its visited key expanded; and, when instance names hold no '.', every
      path of the rules from the target through non-sources within the
      bound ends at an instance, field and level that was expanded and, at
      a source, emitted. */
  ghost predicate TraceCovers(p: Parsed, targetInstance: string, targetField: string, maxDepth: int,
                              emitted: seq<Pending>, expanded: seq<Pending>) {
    (forall e, s | e in expanded && !Halts(p, e.instance) && s in Successors(p, e) && s.depth <= maxDepth ::
       exists x | x in expanded :: VisitKey(x.instance, x.field, x.depth) == VisitKey(s.instance, s.field, s.depth))
    && (DotFree(p, targetInstance) ==>
          forall c | TraceChain(p, targetInstance, targetField, maxDepth, c) :: ChainCovered(p, c[|c| - 1], emitted, expanded))
  }

  /** A target that is itself a source gives its one direct record; a
      dead-end target, or a non-source target instance that nothing enters,
      gives none; and a negative `maxDepth` gives none. */
  ghost predicate TraceTargetCases(p: Parsed, targetInstance: string, targetField: string, maxDepth: int,
                                   records: seq<Result<LineageRecord, string>>) {
    var init := Start(targetInstance, targetField);
    (maxDepth < 0 ==> records == [])
    && (Halts(p, targetInstance) && maxDepth >= 0 ==> records == [TraceRecord(p, targetInstance, targetField, init)])
    && (!Halts(p, targetInstance) && !HasIncoming(p.connections, targetInstance) ==> records == [])
    && (!Halts(p, targetInstance) && DeadEnd(p, init) ==> records == [])
  }

  /** The promise of `trace_lineage`: the three groups above, and the run
      itself. The expanded entries are exactly those the breadth-first
      queue takes (`Dequeued`): for each visited key, the first entry of it
      to be dequeued. The records follow them in that order, one per source
      entry and so one per visited key. */
  ghost predicate TraceResult(p: Parsed, targetInstance: string, targetField: string, maxDepth: int,
                              records: seq<Result<LineageRecord, string>>, emitted: seq<Pending>, expanded: seq<Pending>) {
    TraceRecords(p, targetInstance, targetField, maxDepth, records, emitted, expanded)
    && TraceCovers(p, targetInstance, targetField, maxDepth, emitted, expanded)
    && TraceTargetCases(p, targetInstance, targetField, maxDepth, records)
    && BfsRun(TraceSpec(p, targetInstance, targetField, maxDepth), emitted, expanded)
    && UniqueKeys(emitted, VisitKey)
  }

  lemma TraceRecordsOf(p: Parsed, targetInstance: string, targetField: string, maxDepth: int,
                       records: seq<Result<LineageRecord, string>>, emitted: seq<Pending>, expanded: seq<Pending>)
    requires WalkFacts(TraceSpec(p, targetInstance, targetField, maxDepth), records, emitted, expanded)
    ensures TraceRecords(p, targetInstance, targetField, maxDepth, records, emitted, expanded)
  {
  }

  lemma TraceCoversOf(p: Parsed, targetInstance: string, targetField: string, maxDepth: int,
                      records: seq<Result<LineageRecord, string>>, emitted: seq<Pending>, expanded: seq<Pending>)
    requires WalkPost(TraceSpec(p, targetInstance, targetField, maxDepth), records, emitted, expanded)
    ensures TraceCovers(p, targetInstance, targetField, maxDepth, emitted, expanded)
  {
    TraceEdges(p, targetInstance, targetField, maxDepth, records, emitted, expanded);
    if DotFree(p, targetInstance) {
      forall c | TraceChain(p, targetInstance, targetField, maxDepth, c)
        ensures ChainCovered(p, c[|c| - 1], emitted, expanded)
      {
        TraceComplete(p, targetInstance, targetField, maxDepth, records, emitted, expanded, c);
      }
    }
  }

  lemma TraceTargets(p: Parsed, targetInstance: string, targetField: string, maxDepth: int,
                     records: seq<Result<LineageRecord, string>>, emitted: seq<Pending>, expanded: seq<Pending>)
    requires WalkFacts(TraceSpec(p, targetInstance, targetField, maxDepth), records, emitted, expanded)
    ensures TraceTargetCases(p, targetInstance, targetField, maxDepth, records)
  {
    DeadEndIff(p, Start(targetInstance, targetField));
    if !Halts(p, targetInstance) && !HasIncoming(p.connections, targetInstance) {
      TraceStays(p, targetInstance, targetField, maxDepth);
    }
  }

  /** What the walk's promise means for `trace_lineage`. */
  lemma TracePost(p: Parsed, targetInstance: string, targetField: string, maxDepth: int,
                  records: seq<Result<LineageRecord, string>>, emitted: seq<Pending>, expanded: seq<Pending>)
    requires WalkPost(TraceSpec(p, targetInstance, targetField, maxDepth), records, emitted, expanded)
    ensures TraceResult(p, targetInstance, targetField, maxDepth, records, emitted, expanded)
  {
    TraceRecordsOf(p, targetInstance, targetField, maxDepth, records, emitted, expanded);
    TraceCoversOf(p, targetInstance, targetField, maxDepth, records, emitted, expanded);
    TraceTargets(p, targetInstance, targetField, maxDepth, records, emitted, expanded);
  }

  /** The trace raises exactly when the source test raises on an expanded
      entry: such an entry halts the walk, so it is emitted, and its record
      is the raise. */
  lemma TraceRaises(p: Parsed, targetInstance: string, targetField: string, maxDepth: int,
                    records: seq<Result<LineageRecord, string>>, emitted: seq<Pending>, expanded: seq<Pending>)
    requires TraceRecords(p, targetInstance, targetField, maxDepth, records, emitted, expanded)
    ensures (exists k | 0 <= k < |records| :: records[k].Err?) <==> exists e | e in expanded :: SourceTest(p, e.instance).Err?
  {
    if e :| e in expanded && SourceTest(p, e.instance).Err? {
      assert e in emitted;
      var k :| 0 <= k < |emitted| && emitted[k] == e;
      assert records[k].Err?;
    }
    if k :| 0 <= k < |records| && records[k].Err? {
      assert emitted[k] in expanded;
    }
  }

  class LineageFramework {
    var transformations: map<string, Transformation>
    var connections: seq<Connection>
    var instances: map<string, Value>
    var sources: seq<string>
    var targets: seq<string>
    var targetLoadOrder: map<string, int>

    /** The collections as one value. */
    function Model(): (r: Parsed)
      reads this
    {
      Parsed(transformations, connections, instances, sources, targets, targetLoadOrder)
    }

    constructor()
      ensures Model() == Parsed(map[], [], map[], [], [], map[])
    {
      transformations := map[];
      connections := [];
      instances := map[];
      sources := [];
      targets := [];
      targetLoadOrder := map[];
    }

    // -------------------------------------------------------------- parse_mapping

    /** `parse_mapping`. */
    method ParseMapping(json: Value) returns (r: Result<(), string>)
      modifies this
      ensures r.Ok? <==> ParseInto(old(Model()), json).Ok?
      ensures r.Ok? ==> Model() == ParseInto(old(Model()), json).value
    {
      r := ParseTransformations(json);
      if r.Err? {
        return;
      }
      r := ParseInstances(json);
      if r.Err? {
        return;
      }
      r := ParseConnections(json);
      if r.Err? {
        return;
      }
      ParseLoadOrder(json);
    }

    /** The `TRANSFORMATION` loop. */
    method ParseTransformations(json: Value) returns (r: Result<(), string>)
      modifies this
      ensures r.Ok? <==> TransformationsInto(old(transformations), json).Ok?
      ensures r.Ok? ==> transformations == TransformationsInto(old(transformations), json).value
      ensures connections == old(connections) && instances == old(instances) && sources == old(sources)
              && targets == old(targets) && targetLoadOrder == old(targetLoadOrder)
    {
      var items := Section(json, "TRANSFORMATION");
      if items.Err? {
        return Err(items.error);
      }
      r := StoreTransformations(items.value, TransformationOf);
    }

    /** Each transformation stored under its name as it is read, with the
        reading of one element given by `step` (`ParseTransformation`
        computes the step `TransformationOf`). */
    method StoreTransformations(xs: seq<Value>, step: Value -> Result<Transformation, string>) returns (r: Result<(), string>)
      modifies this
      ensures r.Ok? <==> MapAll(xs, step).Ok?
      ensures r.Ok? ==> transformations == Store(old(transformations), Named(MapAll(xs, step).value))
      ensures connections == old(connections) && instances == old(instances) && sources == old(sources)
              && targets == old(targets) && targetLoadOrder == old(targetLoadOrder)
    {
      for i := 0 to |xs|
        invariant MapAll(xs[..i], step).Ok?
        invariant transformations == Store(old(transformations), Named(MapAll(xs[..i], step).value))
        invariant connections == old(connections) && instances == old(instances) && sources == old(sources)
                  && targets == old(targets) && targetLoadOrder == old(targetLoadOrder)
      {
        MapAllPrefix(xs, i, step);
        var t := step(xs[i]);
        if t.Err? {
          MapAllSpec(xs, step);
          return Err(t.error);
        }
        ghost var ts := MapAll(xs[..i], step).value;
        NamedStep(old(transformations), ts, t.value);
        transformations := transformations[t.value.name := t.value];
      }
      assert xs[..|xs|] == xs;
      return Ok(());
    }

    /** The `INSTANCE` loop. */
    method ParseInstances(json: Value) returns (r: Result<(), string>)
      modifies this
      ensures r.Ok? <==> InstancesInto(old(Model()), json).Ok?
      ensures r.Ok? ==> Model() == InstancesInto(old(Model()), json).value
      ensures transformations == old(transformations) && connections == old(connections)
              && targetLoadOrder == old(targetLoadOrder)
    {
      var items := Section(json, "INSTANCE");
      if items.Err? {
        return Err(items.error);
      }
      r := StoreInstances(items.value, InstanceOf);
    }

    /** Each instance stored under its name, a `SOURCE` appended to the
        sources and a `TARGET` to the targets, with the reading of one
        element given by `step`. */
    method StoreInstances(xs: seq<Value>, step: Value -> Result<InstanceEntry, string>) returns (r: Result<(), string>)
      modifies this
      ensures r.Ok? <==> MapAll(xs, step).Ok?
      ensures r.Ok? ==> Model() == WithInstances(old(Model()), MapAll(xs, step).value)
      ensures transformations == old(transformations) && connections == old(connections)
              && targetLoadOrder == old(targetLoadOrder)
    {
      for i := 0 to |xs|
        invariant MapAll(xs[..i], step).Ok?
        invariant Model() == WithInstances(old(Model()), MapAll(xs[..i], step).value)
        invariant transformations == old(transformations) && connections == old(connections)
                  && targetLoadOrder == old(targetLoadOrder)
      {
        MapAllPrefix(xs, i, step);
        var e := step(xs[i]);
        if e.Err? {
          MapAllSpec(xs, step);
          return Err(e.error);
        }
        WithInstancesStep(old(Model()), MapAll(xs[..i], step).value, e.value);
        var entry := e.value;
        instances := instances[entry.name := entry.instance];
        if entry.kind == Str("SOURCE") {
          sources := sources + [entry.name];
        } else if entry.kind == Str("TARGET") {
          targets := targets + [entry.name];
        }
      }
      assert xs[..|xs|] == xs;
      return Ok(());
    }

    /** The `CONNECTOR` loop. */
    method ParseConnections(json: Value) returns (r: Result<(), string>)
      modifies this
      ensures r.Ok? <==> ConnectionsInto(old(connections), json).Ok?
      ensures r.Ok? ==> connections == ConnectionsInto(old(connections), json).value
      ensures transformations == old(transformations) && instances == old(instances) && sources == old(sources)
              && targets == old(targets) && targetLoadOrder == old(targetLoadOrder)
    {
      var items := Section(json, "CONNECTOR");
      if items.Err? {
        return Err(items.error);
      }
      r := AppendConnections(items.value, ConnectionOf);
    }

    /** Each connection appended as it is read, with the reading of one
        element given by `step`. */
    method AppendConnections(xs: seq<Value>, step: Value -> Result<Connection, string>) returns (r: Result<(), string>)
      modifies this
      ensures r.Ok? <==> MapAll(xs, step).Ok?
      ensures r.Ok? ==> connections == old(connections) + MapAll(xs, step).value
      ensures transformations == old(transformations) && instances == old(instances) && sources == old(sources)
              && targets == old(targets) && targetLoadOrder == old(targetLoadOrder)
    {
      for i := 0 to |xs|
        invariant MapAll(xs[..i], step).Ok?
        invariant connections == old(connections) + MapAll(xs[..i], step).value
        invariant transformations == old(transformations) && instances == old(instances) && sources == old(sources)
                  && targets == old(targets) && targetLoadOrder == old(targetLoadOrder)
      {
        MapAllPrefix(xs, i, step);
        var c := step(xs[i]);
        if c.Err? {
          MapAllSpec(xs, step);
          return Err(c.error);
        }
        connections := connections + [c.value];
      }
      assert xs[..|xs|] == xs;
      return Ok(());
    }

    /** The `TARGETLOADORDER` loop inside its bare `try`: the first element
        that raises ends the loop, and nothing escapes. */
    method ParseLoadOrder(json: Value)
      modifies this
      ensures targetLoadOrder == LoadOrderInto(old(targetLoadOrder), json)
      ensures transformations == old(transformations) && connections == old(connections)
              && instances == old(instances) && sources == old(sources) && targets == old(targets)
    {
      if !Has(json, "TARGETLOADORDER") {
        return;
      }
      var it := Iterate(Get(json, "TARGETLOADORDER").value);
      if it.None? {
        return;
      }
      StoreLoadOrders(it.value, LoadOrderOf);
    }

    /** Each load order stored under its target until the first element
        whose reading, given by `step`, raises. */
    method StoreLoadOrders(xs: seq<Value>, step: Value -> Option<(string, int)>)
      modifies this
      ensures targetLoadOrder == Store(old(targetLoadOrder), Leading(xs, step))
      ensures transformations == old(transformations) && connections == old(connections)
              && instances == old(instances) && sources == old(sources) && targets == old(targets)
    {
      ghost var kept := Leading(xs, step);
      var i := 0;
      while i < |xs|
        invariant 0 <= i <= |kept|
        invariant targetLoadOrder == Store(old(targetLoadOrder), kept[..i])
        invariant transformations == old(transformations) && connections == old(connections)
                  && instances == old(instances) && sources == old(sources) && targets == old(targets)
      {
        var entry := step(xs[i]);
        if entry.None? {
          break;
        }
        assert i < |kept|;
        assert kept[..i + 1] == kept[..i] + [kept[i]];
        StoreStep(old(targetLoadOrder), kept[..i], kept[i]);
        targetLoadOrder := targetLoadOrder[entry.value.0 := entry.value.1];
        i := i + 1;
      }
      assert kept[..i] == kept;
    }

    // -------------------------------------------------------------- lookups

    /** `build_reverse_graph`. */
    method BuildReverseGraph() returns (g: map<string, map<string, seq<Connection>>>)
      ensures ReverseGraphOf(g, connections)
    {
      g := ReverseGraph(connections);
    }

    /** `is_lineage_source`, with its loop looking for an incoming
        connection; `Err` where the type test raises. */
    method IsLineageSource(name: string) returns (r: Result<bool, string>)
      ensures r == SourceTest(Model(), name)
    {
      if name in sources {
        return Ok(true);
      }
      if StartsWith(name, "SQ_") {
        return Ok(true);
      }
      if Contains(name, "SEQ_") || Contains(name, "Sequence") {
        return Ok(true);
      }
      if name in instances {
        var sourceLike := SourceLikeType(instances[name]);
        if sourceLike != Ok(false) {
          return sourceLike;
        }
      }
      if name in transformations {
        var t := transformations[name];
        if t.kind in ["Source Qualifier", "Sequence Generator"] {
          return Ok(true);
        }
        if t.kind == "Expression" {
          var hasIncoming := false;
          var k := 0;
          while k < |connections| && !hasIncoming
            invariant 0 <= k <= |connections|
            invariant hasIncoming <==> exists j | 0 <= j < k :: connections[j].toInstance == name
          {
            if connections[k].toInstance == name {
              hasIncoming := true;
            }
            k := k + 1;
          }
          if hasIncoming {
            var j :| 0 <= j < k && connections[j].toInstance == name;
            assert connections[j] in connections;
          } else {
            assert !HasIncoming(connections, name);
            return Ok(true);
          }
        }
      }
      return Ok(false);
    }

    /** `get_transformation_logic`, with its loop over the fields. */
    method TransformationLogic(name: string, field: string) returns (s: string)
      ensures s == Logic(Model(), name, field)
    {
      if name !in transformations {
        return "Type: Unknown (" + name + ")";
      }
      var t := transformations[name];
      var parts := ["Type: " + t.kind];
      if t.kind == "Expression" && |field| > 0 {
        var f := FindExpression(t.fields, field);
        if f.Some? {
          parts := parts + ["Expression: " + Truncated(f.value.expression)];
        }
      } else if t.kind == "Lookup Procedure" {
        if "Lookup table name" in t.attributes {
          parts := parts + ["Table: " + t.attributes["Lookup table name"]];
        }
        if "Lookup condition" in t.attributes {
          parts := parts + ["Condition: " + Truncated(t.attributes["Lookup condition"])];
        }
      } else if t.kind == "Filter" {
        if "Filter Condition" in t.attributes {
          parts := parts + ["Condition: " + Truncated(t.attributes["Filter Condition"])];
        }
      }
      assert parts == LogicParts(t, field);
      return Join(" | ", parts);
    }

    /** `_get_field_datatype`, with its loop over the fields. */
    method FieldDatatype(instance: string, field: string) returns (s: string)
      ensures s == FieldDatatypeOf(Model(), instance, field)
    {
      if instance in transformations {
        var f := FindField(transformations[instance].fields, field);
        if f.Some? {
          return DatatypeText(f.value);
        }
      }
      return "Unknown";
    }

    /** `get_target_fields`: the fields fed into an instance, without
        duplicates and in ascending order. */
    method GetTargetFields(target: string) returns (r: seq<string>)
      ensures Ascending(r)
      ensures forall x :: x in r <==> exists c | c in connections :: c.toInstance == target && c.toField == x
    {
      var found: set<string> := {};
      for k := 0 to |connections|
        invariant forall x :: x in found <==> exists j | 0 <= j < k :: connections[j].toInstance == target && connections[j].toField == x
      {
        if connections[k].toInstance == target {
          found := found + {connections[k].toField};
        }
      }
      forall x ensures x in found <==> exists c | c in connections :: c.toInstance == target && c.toField == x {
        if exists c | c in connections :: c.toInstance == target && c.toField == x {
          var c :| c in connections && c.toInstance == target && c.toField == x;
          var j :| 0 <= j < |connections| && connections[j] == c;
        }
      }
      // `list(found)`: the order Python's set gives; `sorted` makes the
      // result the same for any order (`AscendingUnique`).
      var listed: seq<string> := [];
      var rest := found;
      while rest != {}
        invariant forall x :: x in found <==> x in listed || x in rest
        decreases |rest|
      {
        var x :| x in rest;
        listed := listed + [x];
        rest := rest - {x};
      }
      r := SortedSet(listed);
      SortedSetSpec(listed);
    }

    // -------------------------------------------------------------- trace_lineage

    /** `trace_lineage`: the work loop from the target field, stopping at
        sources and following the three rules. Every record is the record of
        an entry the rules derive from the target within `maxDepth` levels,
        at a source; no key is expanded twice; a target that is itself a
        source gives its one direct record; and a dead-end target, or a
        non-source target instance that nothing enters, gives none. The
        trace raises, giving `Err`, exactly when the source test raises on
        some entry it takes from the queue, and the error is that of the
        first such entry: up to it, the walk is the walk of `records`. */
    method TraceLineage(targetInstance: string, targetField: string, maxDepth: int)
      returns (r: Result<seq<LineageRecord>, string>,
               ghost records: seq<Result<LineageRecord, string>>, ghost emitted: seq<Pending>, ghost expanded: seq<Pending>)
      ensures TraceResult(Model(), targetInstance, targetField, maxDepth, records, emitted, expanded)
      ensures r.Err? <==> exists e | e in expanded :: SourceTest(Model(), e.instance).Err?
      ensures r.Err? ==> exists k | 0 <= k < |records| :: records[k] == Err(r.error) && forall j | 0 <= j < k :: records[j].Ok?
      ensures r.Ok? ==> |r.value| == |records| && forall k | 0 <= k < |records| :: records[k] == Ok(r.value[k])
    {
      var p := Model();
      TraceClosed(p, targetInstance, targetField, maxDepth);
      var rs, em, ex := Walk(Start(targetInstance, targetField), maxDepth, SourceStop(p), SuccessorRule(p),
                             RecordRule(p, targetInstance, targetField), VisitKey,
                             Reached(p, targetInstance, targetField), {(targetInstance, targetField)} + Pairs(p));
      records, emitted, expanded := rs, em, ex;
      TracePost(p, targetInstance, targetField, maxDepth, records, emitted, expanded);
      r := MapAll(rs, (x: Result<LineageRecord, string>) => x);
      MapAllSpec(rs, (x: Result<LineageRecord, string>) => x);
      TraceRaises(p, targetInstance, targetField, maxDepth, records, emitted, expanded);
    }
  }
}
