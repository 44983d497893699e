/** The records the field-level lineage tracer of
    XMLify/fixed_lineage_maker.py builds from a mapping, the parse that
    fills them, and its read-only lookups and successor rules, stated as
    functions. The class that holds the records and runs the traversal is
    `FieldLineage.LineageFramework`. */
module FieldModel {
  import opened Wrappers
  import opened Text
  import opened Json
  import opened Seqs

  datatype TransformationField = TransformationField(
    name: string, dataType: string, precision: string, scale: string,
    expression: string, description: string, portType: string)

  datatype Transformation = Transformation(
    name: string, kind: string, description: string,
    fields: seq<TransformationField>, attributes: map<string, string>)

  datatype Connection = Connection(
    fromInstance: string, fromField: string, toInstance: string, toField: string,
    fromType: string, toType: string)

  datatype LineageRecord = LineageRecord(
    targetTable: string, targetColumn: string, targetDatatype: string,
    sourceTable: string, sourceColumn: string, sourceDatatype: string,
    transformationPath: string, transformationLogic: string,
    transformationCount: nat, directSource: bool)

  /** The six collections of the framework. */
  datatype Parsed = Parsed(
    transformations: map<string, Transformation>,
    connections: seq<Connection>,
    instances: map<string, Value>,
    sources: seq<string>,
    targets: seq<string>,
    targetLoadOrder: map<string, int>)

  // ---------------------------------------------------------------- parsing

  /** `v.get(k, "")` read as text: the key holds that string, or it is
      absent and the text is empty. */
  predicate Attr(v: Value, k: string, s: string) {
    if Has(v, k) then Get(v, k) == Some(Str(s)) else s == ""
  }

  /** `v.get(k, "")` for each key in turn, each value a string. */
  function TextsOf(v: Value, keys: seq<string>): (r: Result<seq<string>, string>)
    ensures r.Ok? ==> |r.value| == |keys| && forall i | 0 <= i < |keys| :: Attr(v, keys[i], r.value[i])
    decreases |keys|
  {
    if |keys| == 0 then Ok([])
    else
      match (StrOr(v, keys[0], ""), TextsOf(v, keys[1..]))
      case (Ok(t), Ok(ts)) =>
        assert forall i | 1 <= i < |keys| :: keys[1..][i - 1] == keys[i];
        Ok([t] + ts)
      case _ => Err(WrongShape)
  }

  /** The attributes of a field read after its name. */
  const FieldKeys: seq<string> := ["@DATATYPE", "@PRECISION", "@SCALE", "@EXPRESSION", "@DESCRIPTION", "@PORTTYPE"]

  /** One `TRANSFORMFIELD` element. */
  function FieldOf(fd: Value): (r: Result<TransformationField, string>)
    ensures !Has(fd, "@NAME") ==> r.Err?
    ensures r.Ok? ==> Get(fd, "@NAME") == Some(Str(r.value.name))
    ensures r.Ok? ==> Attr(fd, "@DATATYPE", r.value.dataType) && Attr(fd, "@PRECISION", r.value.precision)
                      && Attr(fd, "@SCALE", r.value.scale) && Attr(fd, "@EXPRESSION", r.value.expression)
                      && Attr(fd, "@DESCRIPTION", r.value.description) && Attr(fd, "@PORTTYPE", r.value.portType)
  {
    match StrAt(fd, "@NAME")
    case Err(e) => Err(e)
    case Ok(name) =>
      match TextsOf(fd, FieldKeys)
      case Err(e) => Err(e)
      case Ok(ts) =>
        assert Attr(fd, FieldKeys[0], ts[0]) && Attr(fd, FieldKeys[5], ts[5]);
        Ok(TransformationField(name, ts[0], ts[1], ts[2], ts[3], ts[4], ts[5]))
  }

  /** One `TABLEATTRIBUTE` element: its name and its value. */
  function AttributeOf(a: Value): (r: Result<(string, string), string>)
    ensures r.Ok? <==> StrAt(a, "@NAME").Ok? && StrAt(a, "@VALUE").Ok?
    ensures r.Ok? ==> Get(a, "@NAME") == Some(Str(r.value.0)) && Get(a, "@VALUE") == Some(Str(r.value.1))
  {
    match (StrAt(a, "@NAME"), StrAt(a, "@VALUE"))
    case (Ok(k), Ok(v)) => Ok((k, v))
    case _ => Err(WrongShape)
  }

  /** The `TRANSFORMFIELD` elements of a transformation, a single dict
      standing for a one-element list. */
  function FieldElements(td: Value): (r: Result<seq<Value>, string>) {
    if Has(td, "TRANSFORMFIELD") then ElementsOf(Get(td, "TRANSFORMFIELD").value) else Ok([])
  }

  /** The `TABLEATTRIBUTE` elements, normalised the same way. */
  function AttributeElements(td: Value): (r: Result<seq<Value>, string>) {
    if Has(td, "TABLEATTRIBUTE") then ElementsOf(Get(td, "TABLEATTRIBUTE").value) else Ok([])
  }

  /** The attributes as a name-to-value map, a later attribute replacing an
      earlier one of the same name. */
  function AttributesOf(xs: seq<Value>): (r: Result<map<string, string>, string>) {
    match MapAll(xs, AttributeOf)
    case Err(e) => Err(e)
    case Ok(ps) => Ok(Store(map[], ps))
  }

  /** The fields of a transformation. */
  function FieldsOf(td: Value): (r: Result<seq<TransformationField>, string>) {
    match FieldElements(td)
    case Err(e) => Err(e)
    case Ok(fxs) => MapAll(fxs, FieldOf)
  }

  /** The table attributes of a transformation. */
  function TableAttributesOf(td: Value): (r: Result<map<string, string>, string>) {
    match AttributeElements(td)
    case Err(e) => Err(e)
    case Ok(axs) => AttributesOf(axs)
  }

  /** `_parse_transformation`. */
  function TransformationOf(td: Value): (r: Result<Transformation, string>)
    ensures r.Ok? <==> StrAt(td, "@NAME").Ok? && StrAt(td, "@TYPE").Ok? && StrOr(td, "@DESCRIPTION", "").Ok?
                       && FieldsOf(td).Ok? && TableAttributesOf(td).Ok?
    ensures r.Ok? ==> Get(td, "@NAME") == Some(Str(r.value.name)) && Get(td, "@TYPE") == Some(Str(r.value.kind))
                      && Attr(td, "@DESCRIPTION", r.value.description)
                      && r.value.fields == FieldsOf(td).value && r.value.attributes == TableAttributesOf(td).value
  {
    match (StrAt(td, "@NAME"), StrAt(td, "@TYPE"), StrOr(td, "@DESCRIPTION", ""), FieldsOf(td), TableAttributesOf(td))
    case (Ok(name), Ok(kind), Ok(desc), Ok(fs), Ok(attrs)) => Ok(Transformation(name, kind, desc, fs, attrs))
    case _ => Err(WrongShape)
  }

  /** A single `TRANSFORMFIELD` dict gives the one field it describes. */
  lemma SingleFieldDict(td: Value)
    requires Has(td, "TRANSFORMFIELD") && Get(td, "TRANSFORMFIELD").value.Dict?
    requires FieldOf(Get(td, "TRANSFORMFIELD").value).Ok?
    ensures FieldsOf(td) == Ok([FieldOf(Get(td, "TRANSFORMFIELD").value).value])
  {
    var d := Get(td, "TRANSFORMFIELD").value;
    assert FieldElements(td) == Ok([d]);
    MapAllStep([], d, FieldOf);
    assert [] + [d] == [d];
    assert MapAll([d], FieldOf) == Ok([] + [FieldOf(d).value]);
    assert [] + [FieldOf(d).value] == [FieldOf(d).value];
    assert FieldsOf(td) == MapAll([d], FieldOf);
  }

  /** A single `TABLEATTRIBUTE` dict gives a map of its one name and value. */
  lemma SingleAttributeDict(td: Value)
    requires Has(td, "TABLEATTRIBUTE") && Get(td, "TABLEATTRIBUTE").value.Dict?
    requires AttributeOf(Get(td, "TABLEATTRIBUTE").value).Ok?
    ensures var a := AttributeOf(Get(td, "TABLEATTRIBUTE").value).value;
      TableAttributesOf(td) == Ok(map[a.0 := a.1])
  {
    var d := Get(td, "TABLEATTRIBUTE").value;
    assert AttributeElements(td) == Ok([d]);
    MapAllStep([], d, AttributeOf);
    assert [] + [d] == [d];
    var a := AttributeOf(d).value;
    assert MapAll([d], AttributeOf) == Ok([] + [a]);
    assert [a][..0] == [];
    assert Store(map[], [a]) == map[a.0 := a.1];
    assert TableAttributesOf(td) == AttributesOf([d]);
  }

  /** Every element is an attribute; a name is a key exactly when some
      element carries it, and it holds the value of the last element
      carrying it. */
  lemma {:induction false} AttributesSpec(xs: seq<Value>)
    requires AttributesOf(xs).Ok?
    ensures forall i | 0 <= i < |xs| :: AttributeOf(xs[i]).Ok?
    ensures var m := AttributesOf(xs).value;
      (forall k :: k in m <==> exists i | 0 <= i < |xs| :: AttributeOf(xs[i]).value.0 == k)
      && (forall i | 0 <= i < |xs| && (forall j | i < j < |xs| :: AttributeOf(xs[j]).value.0 != AttributeOf(xs[i]).value.0) ::
            m[AttributeOf(xs[i]).value.0] == AttributeOf(xs[i]).value.1)
  {
    MapAllStoreSpec(xs, AttributeOf);
  }

  /** The elements of a top-level section: absent is empty, and a value
      that `for` cannot iterate raises. */
  function Section(json: Value, key: string): (r: Result<seq<Value>, string>)
    ensures !Has(json, key) ==> r == Ok([])
  {
    if !Has(json, key) then Ok([])
    else match Iterate(Get(json, key).value)
      case Some(xs) => Ok(xs)
      case None => Err(WrongShape)
  }

  function Named(ts: seq<Transformation>): (ps: seq<(string, Transformation)>)
    ensures |ps| == |ts| && forall i | 0 <= i < |ts| :: ps[i] == (ts[i].name, ts[i])
  {
    seq(|ts|, i requires 0 <= i < |ts| => (ts[i].name, ts[i]))
  }

  /** One more transformation stored under its name. */
  lemma NamedStep(m: map<string, Transformation>, ts: seq<Transformation>, t: Transformation)
    ensures Store(m, Named(ts + [t])) == Store(m, Named(ts))[t.name := t]
  {
    assert Named(ts + [t]) == Named(ts) + [(t.name, t)];
    StoreStep(m, Named(ts), (t.name, t));
  }

  /** The `TRANSFORMATION` loop: each transformation is stored under its
      name, a later one replacing an earlier one. */
  function TransformationsInto(m: map<string, Transformation>, json: Value): (r: Result<map<string, Transformation>, string>) {
    match Section(json, "TRANSFORMATION")
    case Err(e) => Err(e)
    case Ok(xs) =>
      match MapAll(xs, TransformationOf)
      case Err(e) => Err(e)
      case Ok(ts) => Ok(Store(m, Named(ts)))
  }

  /** An `INSTANCE` element: its name, the element itself, and its `@TYPE`. */
  datatype InstanceEntry = InstanceEntry(name: string, instance: Value, kind: Value)

  function InstanceOf(v: Value): (r: Result<InstanceEntry, string>)
    ensures r.Ok? <==> StrAt(v, "@NAME").Ok? && Has(v, "@TYPE")
    ensures r.Ok? ==> r.value == InstanceEntry(StrAt(v, "@NAME").value, v, Get(v, "@TYPE").value)
  {
    match StrAt(v, "@NAME")
    case Err(e) => Err(e)
    case Ok(name) => if Has(v, "@TYPE") then Ok(InstanceEntry(name, v, Get(v, "@TYPE").value)) else Err(WrongShape)
  }

  function SourceName(e: InstanceEntry): (r: Option<string>) {
    if e.kind == Str("SOURCE") then Some(e.name) else None
  }

  function TargetName(e: InstanceEntry): (r: Option<string>) {
    if e.kind == Str("TARGET") then Some(e.name) else None
  }

  predicate IsSourceEntry(e: InstanceEntry) {
    e.kind == Str("SOURCE")
  }

  predicate IsTargetEntry(e: InstanceEntry) {
    e.kind == Str("TARGET")
  }

  function InstancePairs(es: seq<InstanceEntry>): (ps: seq<(string, Value)>)
    ensures |ps| == |es| && forall i | 0 <= i < |es| :: ps[i] == (es[i].name, es[i].instance)
  {
    seq(|es|, i requires 0 <= i < |es| => (es[i].name, es[i].instance))
  }

  /** One more instance stored under its name. */
  lemma InstancePairsStep(m: map<string, Value>, es: seq<InstanceEntry>, e: InstanceEntry)
    ensures Store(m, InstancePairs(es + [e])) == Store(m, InstancePairs(es))[e.name := e.instance]
  {
    assert InstancePairs(es + [e]) == InstancePairs(es) + [(e.name, e.instance)];
    StoreStep(m, InstancePairs(es), (e.name, e.instance));
  }

  function InstanceEntries(json: Value): (r: Result<seq<InstanceEntry>, string>) {
    match Section(json, "INSTANCE")
    case Err(e) => Err(e)
    case Ok(xs) => MapAll(xs, InstanceOf)
  }

  /** One instance of the `INSTANCE` loop: stored under its name, and its
      name appended to the sources or the targets by its `@TYPE`. */
  function Register(p: Parsed, e: InstanceEntry): (r: Parsed) {
    p.(instances := p.instances[e.name := e.instance],
       sources := if e.kind == Str("SOURCE") then p.sources + [e.name] else p.sources,
       targets := if e.kind != Str("SOURCE") && e.kind == Str("TARGET") then p.targets + [e.name] else p.targets)
  }

  /** The instances registered in order. */
  function WithInstances(p: Parsed, es: seq<InstanceEntry>): (r: Parsed) {
    p.(instances := Store(p.instances, InstancePairs(es)),
       sources := p.sources + FilterSome(es, SourceName),
       targets := p.targets + FilterSome(es, TargetName))
  }

  lemma WithInstancesStep(p: Parsed, es: seq<InstanceEntry>, e: InstanceEntry)
    ensures WithInstances(p, es + [e]) == Register(WithInstances(p, es), e)
  {
    InstancePairsStep(p.instances, es, e);
    FilterSomeStep(es, e, SourceName);
    FilterSomeStep(es, e, TargetName);
  }

  /** The `INSTANCE` loop: every instance is stored under its name; a
      `SOURCE` is appended to the sources and a `TARGET` to the targets. */
  function InstancesInto(p: Parsed, json: Value): (r: Result<Parsed, string>) {
    match InstanceEntries(json)
    case Err(e) => Err(e)
    case Ok(es) => Ok(WithInstances(p, es))
  }

  /** The names appended to the sources are those of the `SOURCE` instances,
      in order, and likewise for the targets. */
  lemma InstancesSpec(p: Parsed, json: Value)
    requires InstancesInto(p, json).Ok?
    ensures var q := InstancesInto(p, json).value;
      var es := InstanceEntries(json).value;
      var srcs := Where(es, IsSourceEntry);
      var tgts := Where(es, IsTargetEntry);
      |q.sources| == |p.sources| + |srcs| && q.sources[..|p.sources|] == p.sources
      && (forall i | 0 <= i < |srcs| :: q.sources[|p.sources| + i] == srcs[i].name)
      && |q.targets| == |p.targets| + |tgts| && q.targets[..|p.targets|] == p.targets
      && (forall i | 0 <= i < |tgts| :: q.targets[|p.targets| + i] == tgts[i].name)
  {
    var es := InstanceEntries(json).value;
    FilterSomeAsWhere(es, SourceName, IsSourceEntry);
    FilterSomeAsWhere(es, TargetName, IsTargetEntry);
  }

  /** One `CONNECTOR` element. */
  function ConnectionOf(v: Value): (r: Result<Connection, string>)
    ensures r.Ok? ==> Get(v, "@FROMINSTANCE") == Some(Str(r.value.fromInstance))
                      && Get(v, "@FROMFIELD") == Some(Str(r.value.fromField))
                      && Get(v, "@TOINSTANCE") == Some(Str(r.value.toInstance))
                      && Get(v, "@TOFIELD") == Some(Str(r.value.toField))
                      && Attr(v, "@FROMINSTANCETYPE", r.value.fromType)
                      && Attr(v, "@TOINSTANCETYPE", r.value.toType)
    ensures !(Has(v, "@FROMINSTANCE") && Has(v, "@FROMFIELD") && Has(v, "@TOINSTANCE") && Has(v, "@TOFIELD")) ==> r.Err?
  {
    match (StrAt(v, "@FROMINSTANCE"), StrAt(v, "@FROMFIELD"), StrAt(v, "@TOINSTANCE"), StrAt(v, "@TOFIELD"),
           StrOr(v, "@FROMINSTANCETYPE", ""), StrOr(v, "@TOINSTANCETYPE", ""))
    case (Ok(fi), Ok(ff), Ok(ti), Ok(tf), Ok(ft), Ok(tt)) => Ok(Connection(fi, ff, ti, tf, ft, tt))
    case _ => Err(WrongShape)
  }

  /** The `CONNECTOR` loop: every connector is appended, in order. */
  function ConnectionsInto(cs: seq<Connection>, json: Value): (r: Result<seq<Connection>, string>) {
    match Section(json, "CONNECTOR")
    case Err(e) => Err(e)
    case Ok(xs) =>
      match MapAll(xs, ConnectionOf)
      case Err(e) => Err(e)
      case Ok(ys) => Ok(cs + ys)
  }

  /** Python's `int(v)` for the values an attribute can hold; `None` where
      it raises. */
  function IntOf(v: Value): (r: Option<int>) {
    match v
    case Str(s) => ParseInt(s)
    case Int(i) => Some(i)
    case Bool(b) => Some(if b then 1 else 0)
    case Float(r) => Some(if r >= 0.0 then r.Floor else -((-r).Floor))
    case _ => None
  }

  /** One `TARGETLOADORDER` element, `None` where reading it raises. */
  function LoadOrderOf(v: Value): (r: Option<(string, int)>) {
    match StrAt(v, "@TARGETINSTANCE")
    case Err(_) => None
    case Ok(t) => if Has(v, "@ORDER") then (match IntOf(Get(v, "@ORDER").value) case Some(n) => Some((t, n)) case None => None) else None
  }

  /** The load-order loop runs inside a bare `try`: the entries before the
      first element that raises are kept, the rest are skipped. */
  function LoadOrderInto(m: map<string, int>, json: Value): (r: map<string, int>) {
    if !Has(json, "TARGETLOADORDER") then m
    else match Iterate(Get(json, "TARGETLOADORDER").value)
      case None => m
      case Some(xs) => Store(m, Leading(xs, LoadOrderOf))
  }

  /** A single `TARGETLOADORDER` dict is iterated by its keys, which are
      strings, so the first element raises and nothing is recorded. */
  lemma LoadOrderSingleDict(m: map<string, int>, json: Value)
    requires Has(json, "TARGETLOADORDER") && Get(json, "TARGETLOADORDER").value.Dict?
    ensures LoadOrderInto(m, json) == m
  {
    var xs := Iterate(Get(json, "TARGETLOADORDER").value).value;
    if |xs| > 0 {
      assert xs[0].Str?;
    }
  }

  /** `parse_mapping`: the four sections in order, the first raise ending
      the parse. */
  function ParseInto(p: Parsed, json: Value): (r: Result<Parsed, string>) {
    match TransformationsInto(p.transformations, json)
    case Err(e) => Err(e)
    case Ok(ts) =>
      match InstancesInto(p.(transformations := ts), json)
      case Err(e) => Err(e)
      case Ok(p2) =>
        match ConnectionsInto(p2.connections, json)
        case Err(e) => Err(e)
        case Ok(cs) => Ok(p2.(connections := cs, targetLoadOrder := LoadOrderInto(p2.targetLoadOrder, json)))
  }

  // ---------------------------------------------------------------- source test

  /** Python's `word in v`: a substring test on a string, an element test
      on a list and a key test on a dict; on any other value it raises
      TypeError. */
  function In(word: string, v: Value): (r: Result<bool, string>)
    ensures r.Err? <==> !(v.Str? || v.List? || v.Dict?)
    ensures v.Str? ==> r == Ok(Contains(v.s, word))
    ensures v.List? ==> r == Ok(Str(word) in v.items)
    ensures v.Dict? ==> r == Ok(Has(v, word))
  {
    match v
    case Str(s) => Ok(Contains(s, word))
    case List(items) => Ok(Str(word) in items)
    case Dict(_) => Ok(Has(v, word))
    case _ => Err(WrongShape)
  }

  /** `any(src_type in trans_type for src_type in ["Source", "Sequence"])`,
      where `trans_type` is the instance's `@TRANSFORMATION_TYPE`, `""` when
      absent. The first test that raises ends it. */
  function SourceLikeType(v: Value): (r: Result<bool, string>)
    ensures !Has(v, "@TRANSFORMATION_TYPE") ==> r == Ok(false)
    ensures Has(v, "@TRANSFORMATION_TYPE") ==>
              var t := Get(v, "@TRANSFORMATION_TYPE").value;
              (r.Err? <==> In("Source", t).Err?)
              && (r == Ok(true) <==> In("Source", t) == Ok(true) || In("Sequence", t) == Ok(true))
  {
    match Get(v, "@TRANSFORMATION_TYPE")
    case None => Ok(false)
    case Some(t) =>
      match In("Source", t)
      case Err(e) => Err(e)
      case Ok(found) => if found then Ok(true) else In("Sequence", t)
  }

  predicate HasIncoming(cs: seq<Connection>, name: string) {
    exists c | c in cs :: c.toInstance == name
  }

  predicate IsExpression(p: Parsed, name: string) {
    name in p.transformations && p.transformations[name].kind == "Expression"
  }

  /** `is_lineage_source`, test by test: a declared source, an `SQ_` name,
      a `SEQ_` or `Sequence` name, a source-like `@TRANSFORMATION_TYPE`
      (the test that can raise), a Source Qualifier or Sequence Generator
      transformation, and an Expression transformation nothing enters. */
  function SourceTest(p: Parsed, name: string): (r: Result<bool, string>)
    ensures r.Err? ==> name in p.instances && SourceLikeType(p.instances[name]).Err?
  {
    if name in p.sources || StartsWith(name, "SQ_") || Contains(name, "SEQ_") || Contains(name, "Sequence") then Ok(true)
    else if name in p.instances && SourceLikeType(p.instances[name]) != Ok(false) then SourceLikeType(p.instances[name])
    else Ok((name in p.transformations && p.transformations[name].kind in ["Source Qualifier", "Sequence Generator"])
            || (IsExpression(p, name) && !HasIncoming(p.connections, name)))
  }

  /** The instance is a lineage source: `is_lineage_source` returns True. */
  predicate IsSource(p: Parsed, name: string) {
    SourceTest(p, name) == Ok(true)
  }

  /** The backward trace goes no further at the instance: it is a source,
      or testing it raises. */
  predicate Halts(p: Parsed, name: string) {
    SourceTest(p, name) != Ok(false)
  }

  /** The six tests, each an if-and-only-if: the result is True exactly
      when one of them holds, it raises exactly when none of the first
      three holds and the instance's type cannot be searched, and it is
      False otherwise. */
  lemma SourceTestSpec(p: Parsed, name: string)
    ensures var early := name in p.sources || StartsWith(name, "SQ_") || Contains(name, "SEQ_") || Contains(name, "Sequence");
      var typed := name in p.instances && SourceLikeType(p.instances[name]) == Ok(true);
      var kinded := name in p.transformations && p.transformations[name].kind in ["Source Qualifier", "Sequence Generator"];
      var literal := IsExpression(p, name) && !HasIncoming(p.connections, name);
      (IsSource(p, name) <==> early || typed || (!(name in p.instances && SourceLikeType(p.instances[name]).Err?) && (kinded || literal)))
      && (SourceTest(p, name).Err? <==> !early && name in p.instances && SourceLikeType(p.instances[name]).Err?)
  {
  }

  // ---------------------------------------------------------------- logic text

  /** Long expressions and conditions are cut to 97 characters and `...`. */
  function Truncated(s: string): (r: string)
    ensures |r| <= 100
    ensures |s| <= 100 ==> r == s
    ensures |s| > 100 ==> |r| == 100 && r[..97] == s[..97]
  {
    if |s| > 100 then s[..97] + "..." else s
  }

  /** The first field of that name whose expression is non-empty. */
  function FirstExpression(fields: seq<TransformationField>, name: string): (r: Option<TransformationField>)
    ensures r.None? <==> forall i | 0 <= i < |fields| :: !(fields[i].name == name && |fields[i].expression| > 0)
    ensures r.Some? ==> exists i | 0 <= i < |fields| ::
              (fields[i] == r.value && r.value.name == name && |r.value.expression| > 0
               && forall j | 0 <= j < i :: !(fields[j].name == name && |fields[j].expression| > 0))
    decreases |fields|
  {
    if |fields| == 0 then None
    else if fields[0].name == name && |fields[0].expression| > 0 then Some(fields[0])
    else
      var r := FirstExpression(fields[1..], name);
      assert forall i | 1 <= i < |fields| :: fields[1..][i - 1] == fields[i];
      r
  }

  /** The parts `get_transformation_logic` joins for a known transformation. */
  function LogicParts(t: Transformation, field: string): (parts: seq<string>)
    ensures |parts| >= 1 && parts[0] == "Type: " + t.kind
  {
    ["Type: " + t.kind] +
    (if t.kind == "Expression" && |field| > 0 then
       match FirstExpression(t.fields, field)
       case Some(f) => ["Expression: " + Truncated(f.expression)]
       case None => []
     else if t.kind == "Lookup Procedure" then
       (if "Lookup table name" in t.attributes then ["Table: " + t.attributes["Lookup table name"]] else [])
       + (if "Lookup condition" in t.attributes then ["Condition: " + Truncated(t.attributes["Lookup condition"])] else [])
     else if t.kind == "Filter" then
       (if "Filter Condition" in t.attributes then ["Condition: " + Truncated(t.attributes["Filter Condition"])] else [])
     else [])
  }

  /** `get_transformation_logic`. */
  function Logic(p: Parsed, name: string, field: string): (r: string) {
    if name !in p.transformations then "Type: Unknown (" + name + ")"
    else Join(" | ", LogicParts(p.transformations[name], field))
  }

  /** The logic text always starts with `Type: `, so it is never empty, and
      an unknown name gives `Type: Unknown (<name>)`. */
  lemma LogicShape(p: Parsed, name: string, field: string)
    ensures StartsWith(Logic(p, name, field), "Type: ")
    ensures |Logic(p, name, field)| > 0
    ensures name !in p.transformations ==> Logic(p, name, field) == "Type: Unknown (" + name + ")"
  {
    if name in p.transformations {
      var parts := LogicParts(p.transformations[name], field);
      JoinFirst(" | ", parts);
      var j := Join(" | ", parts);
      assert j[..|parts[0]|][..6] == j[..6];
    } else {
      assert ("Type: Unknown (" + name + ")")[..6] == "Type: ";
    }
  }

  // ---------------------------------------------------------------- datatypes

  /** The first field of that name. */
  function FirstNamed(fields: seq<TransformationField>, name: string): (r: Option<TransformationField>)
    ensures r.None? <==> forall i | 0 <= i < |fields| :: fields[i].name != name
    ensures r.Some? ==> exists i | 0 <= i < |fields| ::
              (fields[i] == r.value && r.value.name == name && forall j | 0 <= j < i :: fields[j].name != name)
    decreases |fields|
  {
    if |fields| == 0 then None
    else if fields[0].name == name then Some(fields[0])
    else
      var r := FirstNamed(fields[1..], name);
      assert forall i | 1 <= i < |fields| :: fields[1..][i - 1] == fields[i];
      r
  }

  /** The scale is written only when it is present and not `"0"`. */
  predicate ScaleShown(f: TransformationField) {
    |f.scale| > 0 && f.scale != "0"
  }

  /** A field's datatype with `(precision[,scale])` appended. */
  function DatatypeText(f: TransformationField): (r: string)
    ensures |f.precision| == 0 ==> r == f.dataType
    ensures |f.precision| > 0 ==> StartsWith(r, f.dataType + "(" + f.precision) && r[|r| - 1] == ')'
    ensures |f.precision| > 0 ==> |r| == |f.dataType| + |f.precision| + 2 + (if ScaleShown(f) then |f.scale| + 1 else 0)
  {
    if |f.precision| > 0 then
      var head := f.dataType + "(" + f.precision;
      var r := head + (if ScaleShown(f) then "," + f.scale else "") + ")";
      assert r[..|head|] == head;
      r
    else f.dataType
  }

  /** `_get_field_datatype`. */
  function FieldDatatypeOf(p: Parsed, instance: string, field: string): (r: string)
    ensures instance !in p.transformations ==> r == "Unknown"
    ensures (instance in p.transformations && forall i | 0 <= i < |p.transformations[instance].fields| ::
              p.transformations[instance].fields[i].name != field) ==> r == "Unknown"
  {
    if instance !in p.transformations then "Unknown"
    else match FirstNamed(p.transformations[instance].fields, field)
      case Some(f) => DatatypeText(f)
      case None => "Unknown"
  }

  // ---------------------------------------------------------------- reverse graph

  /** The test of a connection into one field of one instance. */
  function Entering(instance: string, field: string): (r: Connection -> bool) {
    (c: Connection) => c.toInstance == instance && c.toField == field
  }

  /** The connections into one field of one instance, in order. */
  function Into(cs: seq<Connection>, instance: string, field: string): (r: seq<Connection>) {
    Where(cs, Entering(instance, field))
  }

  predicate Feeds(cs: seq<Connection>, instance: string, field: string) {
    exists c | c in cs :: c.toInstance == instance && c.toField == field
  }

  /** `build_reverse_graph`'s result: an entry for each fed field, holding
      the connections into it in input order, so that each connection is in
      exactly one list, once. */
  ghost predicate ReverseGraphOf(g: map<string, map<string, seq<Connection>>>, cs: seq<Connection>) {
    (forall i, f :: (i in g && f in g[i]) <==> Feeds(cs, i, f))
    && (forall i, f | i in g && f in g[i] :: g[i][f] == Into(cs, i, f))
  }

  /** A list of the reverse graph is the connections at the increasing
      positions of the connections into that field. */
  lemma IntoSpec(cs: seq<Connection>, instance: string, field: string)
    ensures var idx := KeptAt(cs, Entering(instance, field));
      |idx| == |Into(cs, instance, field)|
      && (forall k | 0 <= k < |idx| :: Into(cs, instance, field)[k] == cs[idx[k]])
      && (forall k, l | 0 <= k < l < |idx| :: idx[k] < idx[l])
      && (forall i | 0 <= i < |cs| :: i in idx <==> cs[i].toInstance == instance && cs[i].toField == field)
  {
    WhereSpec(cs, Entering(instance, field));
  }

  lemma IntoEmpty(cs: seq<Connection>, instance: string, field: string)
    ensures Into(cs, instance, field) == [] <==> !Feeds(cs, instance, field)
  {
    var r := Into(cs, instance, field);
    if Feeds(cs, instance, field) {
      var c :| c in cs && c.toInstance == instance && c.toField == field;
      var i :| 0 <= i < |cs| && cs[i] == c;
      assert cs[i] in r;
    }
    if |r| > 0 {
      assert r[0] in r;
    }
  }

  /** `graph[c.to][c.field].append(c)`, the entries created when missing. */
  function Added(g: map<string, map<string, seq<Connection>>>, c: Connection): (r: map<string, map<string, seq<Connection>>>) {
    var inner := if c.toInstance in g then g[c.toInstance] else map[];
    var list := if c.toField in inner then inner[c.toField] else [];
    g[c.toInstance := inner[c.toField := list + [c]]]
  }

  /** Appending one connection to the list of the field it enters keeps the
      reverse graph of the longer list. */
  lemma ReverseGraphStep(g: map<string, map<string, seq<Connection>>>, cs: seq<Connection>, c: Connection)
    requires ReverseGraphOf(g, cs)
    ensures ReverseGraphOf(Added(g, c), cs + [c])
  {
    var inner := if c.toInstance in g then g[c.toInstance] else map[];
    var g' := Added(g, c);
    var cs' := cs + [c];
    assert cs'[..|cs|] == cs;
    forall i, f ensures (i in g' && f in g'[i]) <==> Feeds(cs', i, f) {
      if i == c.toInstance && f == c.toField {
        assert c in cs';
      } else {
        if Feeds(cs', i, f) {
          var d :| d in cs' && d.toInstance == i && d.toField == f;
          assert d in cs;
        }
        if Feeds(cs, i, f) {
          var d :| d in cs && d.toInstance == i && d.toField == f;
          assert d in cs';
        }
        assert (i in g' && f in g'[i]) <==> (i in g && f in g[i]);
      }
    }
    forall i, f | i in g' && f in g'[i] ensures g'[i][f] == Into(cs', i, f) {
      if i == c.toInstance && f == c.toField {
        if !(c.toField in inner) {
          IntoEmpty(cs, i, f);
        }
      }
    }
  }

  // ---------------------------------------------------------------- traversal

  /** A queue entry of `trace_lineage`. */
  datatype Pending = Pending(instance: string, field: string, path: seq<string>, logicPath: seq<string>, depth: nat)

  /** The entry one step further back. */
  function Next(e: Pending, instance: string, field: string, logicPath: seq<string>): (r: Pending) {
    Pending(instance, field, e.path + [e.instance], logicPath, e.depth + 1)
  }

  /** The first rule: one entry per connection into the field, carrying the
      logic of the current instance. */
  function DirectSucc(p: Parsed, e: Pending): (r: seq<Pending>) {
    var logic := Logic(p, e.instance, e.field);
    var lp := if |logic| > 0 then e.logicPath + [logic] else e.logicPath;
    var cs := Into(p.connections, e.instance, e.field);
    seq(|cs|, k requires 0 <= k < |cs| => Next(e, cs[k].fromInstance, cs[k].fromField, lp))
  }

  /** The second rule, per field of an Expression: a non-empty expression
      that mentions the current field name makes that field a predecessor. */
  function ExprStep(e: Pending): (r: TransformationField -> Option<Pending>) {
    (f: TransformationField) => if |f.expression| > 0 && Contains(f.expression, e.field)
         then Some(Next(e, e.instance, f.name, e.logicPath + ["Expression: " + f.expression]))
         else None
  }

  function ExprSucc(p: Parsed, e: Pending): (r: seq<Pending>) {
    if IsExpression(p, e.instance) then FilterSome(p.transformations[e.instance].fields, ExprStep(e)) else []
  }

  /** The third rule, per connection into the instance and field of that
      Expression: the field's own expression names the connection's source
      field. */
  function ConnStep(e: Pending, c: Connection): (r: TransformationField -> Option<Pending>) {
    (f: TransformationField) => if f.name == e.field && |f.expression| > 0 && Contains(f.expression, c.fromField)
         then Some(Next(e, c.fromInstance, c.fromField, e.logicPath + ["Expression: " + f.expression]))
         else None
  }

  function ConnSucc(p: Parsed, e: Pending, cs: seq<Connection>): (r: seq<Pending>) {
    if |cs| == 0 then []
    else
      var c := cs[|cs| - 1];
      ConnSucc(p, e, cs[..|cs| - 1])
      + (if c.toInstance == e.instance && IsExpression(p, e.instance)
         then FilterSome(p.transformations[e.instance].fields, ConnStep(e, c)) else [])
  }

  /** Everything a non-source entry enqueues, in the order of the three rules. */
  function Successors(p: Parsed, e: Pending): (r: seq<Pending>) {
    DirectSucc(p, e) + ExprSucc(p, e) + ConnSucc(p, e, p.connections)
  }

  /** One step back: one more level, the current instance appended to the
      path, one more logic text. */
  predicate Step(e: Pending, s: Pending) {
    s.depth == e.depth + 1 && s.path == e.path + [e.instance] && |s.logicPath| == |e.logicPath| + 1
  }

  /** The entry `trace_lineage` starts from. */
  function Start(targetInstance: string, targetField: string): (r: Pending) {
    Pending(targetInstance, targetField, [], [], 0)
  }

  /** `s` is reached from `init` by the three rules, one level at a time. */
  ghost predicate Derived(p: Parsed, init: Pending, s: Pending)
    decreases s.depth
  {
    s == init
    || (s.depth > 0 && exists e: Pending | e.depth == s.depth - 1 && Derived(p, init, e) :: s in Successors(p, e))
  }

  /** Every (instance, field) a rule can produce: a connection's source, or
      a field of a transformation. */
  ghost function Pairs(p: Parsed): (r: set<(string, string)>) {
    (set c | c in p.connections :: (c.fromInstance, c.fromField))
    + (set n, f | n in p.transformations && f in p.transformations[n].fields :: (n, f.name))
  }

  lemma {:induction false} ConnSuccFrom(p: Parsed, e: Pending, cs: seq<Connection>)
    ensures forall s | s in ConnSucc(p, e, cs) :: Step(e, s) && exists c | c in cs ::
              c.toInstance == e.instance && s.instance == c.fromInstance && s.field == c.fromField
  {
    if |cs| > 0 {
      var pre := cs[..|cs| - 1];
      var c := cs[|cs| - 1];
      ConnSuccFrom(p, e, pre);
      forall s | s in ConnSucc(p, e, cs)
        ensures Step(e, s) && exists c | c in cs :: c.toInstance == e.instance && s.instance == c.fromInstance && s.field == c.fromField
      {
        if s in ConnSucc(p, e, pre) {
          var c' :| c' in pre && c'.toInstance == e.instance && s.instance == c'.fromInstance && s.field == c'.fromField;
          assert c' in cs;
        } else {
          var fs := p.transformations[e.instance].fields;
          FilterSomeFrom(fs, ConnStep(e, c), s);
        }
      }
    }
  }

  /** The same instance, field and level. */
  predicate SameSlot(a: Pending, b: Pending) {
    a.instance == b.instance && a.field == b.field && a.depth == b.depth
  }

  lemma {:induction false} ConnSuccAlike(p: Parsed, a: Pending, b: Pending, cs: seq<Connection>, s: Pending)
    requires SameSlot(a, b) && s in ConnSucc(p, a, cs)
    ensures exists t | t in ConnSucc(p, b, cs) :: SameSlot(s, t)
  {
    var pre := cs[..|cs| - 1];
    var c := cs[|cs| - 1];
    if s in ConnSucc(p, a, pre) {
      ConnSuccAlike(p, a, b, pre, s);
      var t :| t in ConnSucc(p, b, pre) && SameSlot(s, t);
      assert t in ConnSucc(p, b, cs);
    } else {
      var fs := p.transformations[a.instance].fields;
      FilterSomeFrom(fs, ConnStep(a, c), s);
      var i :| 0 <= i < |fs| && ConnStep(a, c)(fs[i]) == Some(s);
      var t := ConnStep(b, c)(fs[i]).value;
      FilterSomeTo(fs, ConnStep(b, c), i, t);
      assert t in ConnSucc(p, b, cs);
    }
  }

  /** The instances, fields and levels an entry enqueues depend on its own
      instance, field and level alone, not on its path or logic. */
  lemma SuccessorsAlike(p: Parsed, a: Pending, b: Pending)
    requires SameSlot(a, b)
    ensures forall s | s in Successors(p, a) :: exists t | t in Successors(p, b) :: SameSlot(s, t)
  {
    forall s | s in Successors(p, a) ensures exists t | t in Successors(p, b) :: SameSlot(s, t) {
      if s in DirectSucc(p, a) {
        var into := Into(p.connections, a.instance, a.field);
        var k :| 0 <= k < |into| && s == DirectSucc(p, a)[k];
        var t := DirectSucc(p, b)[k];
        assert t in Successors(p, b) && SameSlot(s, t);
      } else if s in ExprSucc(p, a) {
        var fs := p.transformations[a.instance].fields;
        FilterSomeFrom(fs, ExprStep(a), s);
        var i :| 0 <= i < |fs| && ExprStep(a)(fs[i]) == Some(s);
        var t := ExprStep(b)(fs[i]).value;
        FilterSomeTo(fs, ExprStep(b), i, t);
        assert t in Successors(p, b);
      } else {
        ConnSuccAlike(p, a, b, p.connections, s);
        var t :| t in ConnSucc(p, b, p.connections) && SameSlot(s, t);
        assert t in Successors(p, b);
      }
    }
  }

  /** Every successor is one step back, at an (instance, field) of
      `Pairs`. */
  lemma SuccessorsFollow(p: Parsed, e: Pending)
    ensures forall s | s in Successors(p, e) :: Step(e, s) && (s.instance, s.field) in Pairs(p)
  {
    var logic := Logic(p, e.instance, e.field);
    LogicShape(p, e.instance, e.field);
    var into := Into(p.connections, e.instance, e.field);
    forall s | s in DirectSucc(p, e) ensures Step(e, s) && (s.instance, s.field) in Pairs(p) {
      var k :| 0 <= k < |into| && s == DirectSucc(p, e)[k];
      assert into[k] in into;
      assert into[k] in p.connections;
    }
    forall s | s in ExprSucc(p, e) ensures Step(e, s) && (s.instance, s.field) in Pairs(p) {
      var fs := p.transformations[e.instance].fields;
      FilterSomeFrom(fs, ExprStep(e), s);
      var i :| 0 <= i < |fs| && ExprStep(e)(fs[i]) == Some(s);
      assert fs[i] in fs;
    }
    ConnSuccFrom(p, e, p.connections);
  }

  /** A successor of a derived entry is derived. */
  lemma DerivedStep(p: Parsed, init: Pending, e: Pending, s: Pending)
    requires Derived(p, init, e) && s in Successors(p, e)
    ensures Derived(p, init, s)
  {
    SuccessorsFollow(p, e);
    assert s.depth == e.depth + 1;
  }

  /** Past the start, every derived entry sits at an (instance, field) of `Pairs`. */
  lemma DerivedPairs(p: Parsed, init: Pending, s: Pending)
    requires Derived(p, init, s)
    ensures s == init || (s.instance, s.field) in Pairs(p)
  {
    if s != init {
      var e: Pending :| e.depth == s.depth - 1 && Derived(p, init, e) && s in Successors(p, e);
      SuccessorsFollow(p, e);
    }
  }

  /** When nothing enters the instance, every successor stays in it. */
  lemma NoIncomingStays(p: Parsed, e: Pending)
    requires !HasIncoming(p.connections, e.instance)
    ensures forall s | s in Successors(p, e) :: s.instance == e.instance
  {
    var into := Into(p.connections, e.instance, e.field);
    IntoEmpty(p.connections, e.instance, e.field);
    assert into == [];
    ConnSuccFrom(p, e, p.connections);
    forall s | s in ExprSucc(p, e) ensures s.instance == e.instance {
      var fs := p.transformations[e.instance].fields;
      FilterSomeFrom(fs, ExprStep(e), s);
    }
  }

  /** A dead end: not fed by a connection, no expression of its Expression
      mentions the field, and the field's own expression names no source
      field of a connection into the instance. */
  predicate DeadEnd(p: Parsed, e: Pending) {
    !Feeds(p.connections, e.instance, e.field)
    && !(IsExpression(p, e.instance) && exists f | f in p.transformations[e.instance].fields ::
           |f.expression| > 0 && Contains(f.expression, e.field))
    && !(IsExpression(p, e.instance) && exists c, f | c in p.connections && f in p.transformations[e.instance].fields ::
           c.toInstance == e.instance && f.name == e.field && |f.expression| > 0 && Contains(f.expression, c.fromField))
  }

  lemma {:induction false} ConnSuccEmpty(p: Parsed, e: Pending, cs: seq<Connection>)
    ensures ConnSucc(p, e, cs) == [] <==> !(IsExpression(p, e.instance) && exists c, f | c in cs && f in p.transformations[e.instance].fields ::
              c.toInstance == e.instance && f.name == e.field && |f.expression| > 0 && Contains(f.expression, c.fromField))
  {
    if |cs| > 0 {
      var pre := cs[..|cs| - 1];
      var c := cs[|cs| - 1];
      ConnSuccEmpty(p, e, pre);
      if IsExpression(p, e.instance) {
        FilterSomeEmpty(p.transformations[e.instance].fields, ConnStep(e, c));
      }
      assert cs == pre + [c];
    }
  }

  /** A non-source entry enqueues nothing exactly when it is a dead end. */
  lemma DeadEndIff(p: Parsed, e: Pending)
    ensures Successors(p, e) == [] <==> DeadEnd(p, e)
  {
    IntoEmpty(p.connections, e.instance, e.field);
    ConnSuccEmpty(p, e, p.connections);
    if IsExpression(p, e.instance) {
      FilterSomeEmpty(p.transformations[e.instance].fields, ExprStep(e));
    }
  }

  // ---------------------------------------------------------------- records

  function TargetTable(name: string): (r: string) {
    ReplaceAll(name, "Shortcut_to_", "")
  }

  function SourceTable(name: string): (r: string) {
    ReplaceAll(ReplaceAll(name, "Shortcut_to_", ""), "SQ_", "")
  }

  /** The record `trace_lineage` emits at a source. */
  function RecordOf(p: Parsed, targetInstance: string, targetField: string, e: Pending): (r: LineageRecord) {
    LineageRecord(
      TargetTable(targetInstance), targetField, FieldDatatypeOf(p, targetInstance, targetField),
      SourceTable(e.instance), e.field, FieldDatatypeOf(p, e.instance, e.field),
      Join(" -> ", Reversed(e.path + [e.instance])), Join(" | ", Reversed(e.logicPath)),
      |e.path|, |e.path| == 0)
  }

  /** The key of the visited set. */
  function VisitKey(instance: string, field: string, depth: nat): (r: string) {
    instance + "." + field + "." + NatToString(depth)
  }

  /** When the instance names hold no '.', the visited key tells apart
      entries of different instance, field or level. */
  lemma VisitKeyInjective(i: string, f: string, d: nat, i': string, f': string, d': nat)
    requires '.' !in i && '.' !in i' && VisitKey(i, f, d) == VisitKey(i', f', d')
    ensures i == i' && f == f' && d == d'
  {
    var n, n' := NatToString(d), NatToString(d');
    assert !IsDigit('.');
    assert '.' !in n && '.' !in n';
    SplitAtLast(i + "." + f, n, i' + "." + f', n', '.');
    SplitAtFirst(i, f, i', f', '.');
    NatToStringInjective(d, d');
  }

  /** The shape every queue entry keeps: as many levels as path entries and
      logic texts, the target itself at level zero, and a path that starts
      at the target. */
  predicate WellFormed(targetInstance: string, targetField: string, e: Pending) {
    |e.path| == e.depth && |e.logicPath| == e.depth
    && (e.depth == 0 ==> e.instance == targetInstance && e.field == targetField)
    && (e.depth > 0 ==> e.path[0] == targetInstance)
  }

  /** The successors of a well-formed entry are well formed. */
  lemma SuccessorsWellFormed(p: Parsed, targetInstance: string, targetField: string, e: Pending)
    requires WellFormed(targetInstance, targetField, e)
    ensures forall s | s in Successors(p, e) :: WellFormed(targetInstance, targetField, s) && (s.instance, s.field) in Pairs(p)
  {
    SuccessorsFollow(p, e);
    forall s | s in Successors(p, e) ensures WellFormed(targetInstance, targetField, s) {
      assert Step(e, s);
      assert s.path == e.path + [e.instance];
      assert s.path[0] == (if e.depth == 0 then e.instance else e.path[0]);
    }
  }

  /** What the walk needs of the successors of an expanded entry: they are
      well formed, derived and at an (instance, field) of `Pairs`; with
      nothing entering the target instance they stay in it; and the start
      of a dead end has none. */
  lemma SuccessorFacts(p: Parsed, targetInstance: string, targetField: string, e: Pending)
    requires WellFormed(targetInstance, targetField, e) && Derived(p, Start(targetInstance, targetField), e)
    ensures forall s | s in Successors(p, e) ::
              WellFormed(targetInstance, targetField, s) && (s.instance, s.field) in Pairs(p)
              && Derived(p, Start(targetInstance, targetField), s)
    ensures !HasIncoming(p.connections, targetInstance) && e.instance == targetInstance ==>
              forall s | s in Successors(p, e) :: s.instance == targetInstance
    ensures DeadEnd(p, e) ==> Successors(p, e) == []
  {
    SuccessorsWellFormed(p, targetInstance, targetField, e);
    forall s | s in Successors(p, e) ensures Derived(p, Start(targetInstance, targetField), s) {
      DerivedStep(p, Start(targetInstance, targetField), e, s);
    }
    if !HasIncoming(p.connections, targetInstance) && e.instance == targetInstance {
      NoIncomingStays(p, e);
    }
    DeadEndIff(p, e);
  }

  /** A record built at a well-formed entry counts its levels, is direct
      exactly at the target itself, and its path runs from the source
      instance to the target instance. */
  lemma RecordShape(p: Parsed, targetInstance: string, targetField: string, e: Pending)
    requires WellFormed(targetInstance, targetField, e)
    ensures var r := RecordOf(p, targetInstance, targetField, e);
      r.transformationCount == e.depth
      && (r.directSource <==> e.depth == 0)
      && (r.directSource ==> r.sourceColumn == targetField && r.sourceTable == SourceTable(targetInstance))
      && r.targetTable == TargetTable(targetInstance) && r.targetColumn == targetField
    ensures var hops := Reversed(e.path + [e.instance]);
      |hops| == e.depth + 1 && hops[0] == e.instance && hops[|hops| - 1] == targetInstance
  {
  }
}
