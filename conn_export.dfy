/** The `InformaticaMappingExtractor` of XMLify/csv_expos/conn_csv_export.py:
    the plain exporter that turns every connector of every mapping of a
    workflow export into one record of its six endpoint fields, numbered
    after its mapping; plus the two filters over the records it holds. */
module ConnExport {
  import opened Wrappers
  import opened Text
  import opened Json
  import opened Seqs
  import NewStyle
  import LogicConn

  /** A connector record; the six fields are kept as the export holds them. */
  datatype ConnectorInfo = ConnectorInfo(
    mappingNumber: nat, mappingName: string,
    fromField: Value, fromInstance: Value, fromInstanceType: Value,
    toField: Value, toInstance: Value, toInstanceType: Value)

  // ---------------------------------------------------------------- finding the mappings

  /** `workflow_data['POWERMART']['REPOSITORY']['FOLDER']`. */
  function FolderOf(w: Value): (r: Result<Value, string>) {
    match Index(w, "POWERMART")
    case Err(e) => Err(e)
    case Ok(p) =>
      match Index(p, "REPOSITORY")
      case Err(e) => Err(e)
      case Ok(r) => Index(r, "FOLDER")
  }

  /** `...['FOLDER'][i]['WORKFLOW']['@NAME']`. */
  function WorkflowNameAt(w: Value, i: nat): (r: Result<Value, string>) {
    match FolderOf(w)
    case Err(e) => Err(e)
    case Ok(f) =>
      match Item(f, i)
      case Err(e) => Err(e)
      case Ok(x) =>
        match Index(x, "WORKFLOW")
        case Err(e) => Err(e)
        case Ok(wf) => Index(wf, "@NAME")
  }

  /** `_get_workflow_name`: the workflow of the second folder, else of the
      first; when both lookups raise the error escapes. */
  function WorkflowName(w: Value): (r: Result<Value, string>) {
    var second := WorkflowNameAt(w, 1);
    if second.Ok? then second else WorkflowNameAt(w, 0)
  }

  /** The folder value again, through `.get(..., {})` at every level. */
  function FolderVia(w: Value): (r: Result<Value, string>) {
    match PyGet(w, "POWERMART", Dict([]))
    case Err(e) => Err(e)
    case Ok(p) =>
      match PyGet(p, "REPOSITORY", Dict([]))
      case Err(e) => Err(e)
      case Ok(r) => PyGet(r, "FOLDER", Dict([]))
  }

  /** `folder[0]['MAPPING']`, else `folder[1]['MAPPING']`. */
  function FolderMapping(folder: Value): (r: Result<Value, string>) {
    var first := match Item(folder, 0) case Err(e) => Err(e) case Ok(f0) => Index(f0, "MAPPING");
    if first.Ok? then first
    else match Item(folder, 1) case Err(e) => Err(e) case Ok(f1) => Index(f1, "MAPPING")
  }

  /** `_extract_mappings`: the handler turns every raise into no mappings;
      a mapping dict stands for a one-element list, a list is kept, anything
      else gives none. */
  function CsvMappings(w: Value): (r: seq<Value>) {
    if WorkflowName(w).Err? then []
    else
      match FolderVia(w)
      case Err(_) => []
      case Ok(folder) =>
        match FolderMapping(folder)
        case Err(_) => []
        case Ok(md) => AsList(md)
  }

  /** Once the workflow name is found, the folder is a list reached the
      same way by both paths, and the mappings are those of the first
      folder holding a `MAPPING` key among the first two; with no workflow
      name, or no such folder, there are none. */
  lemma CsvMappingsSpec(w: Value)
    ensures WorkflowName(w).Err? ==> CsvMappings(w) == []
    ensures WorkflowName(w).Ok? ==>
      FolderOf(w).Ok? && FolderOf(w).value.List? && FolderVia(w) == FolderOf(w)
      && var items := FolderOf(w).value.items;
         (|items| > 0 && Has(items[0], "MAPPING") ==> CsvMappings(w) == AsList(Get(items[0], "MAPPING").value))
         && (!(|items| > 0 && Has(items[0], "MAPPING")) && |items| > 1 && Has(items[1], "MAPPING") ==>
               CsvMappings(w) == AsList(Get(items[1], "MAPPING").value))
         && (!(|items| > 0 && Has(items[0], "MAPPING")) && !(|items| > 1 && Has(items[1], "MAPPING")) ==>
               CsvMappings(w) == [])
  {
    if WorkflowName(w).Ok? {
      var i: nat := if WorkflowNameAt(w, 1).Ok? then 1 else 0;
      assert WorkflowNameAt(w, i).Ok?;
      var p := Index(w, "POWERMART").value;
      var r := Index(p, "REPOSITORY").value;
      assert PyGet(w, "POWERMART", Dict([])) == Ok(p);
      assert PyGet(p, "REPOSITORY", Dict([])) == Ok(r);
      assert PyGet(r, "FOLDER", Dict([])) == Index(r, "FOLDER");
    }
  }

  /** A single folder dict raises at `FOLDER[1]` and `FOLDER[0]`, so it
      yields no mappings. */
  lemma CsvMappingsDictFolder(w: Value)
    requires FolderOf(w).Ok? && FolderOf(w).value.Dict?
    ensures CsvMappings(w) == []
  {
    assert WorkflowNameAt(w, 1).Err? && WorkflowNameAt(w, 0).Err?;
  }

  // ---------------------------------------------------------------- one connector

  /** `_process_connector`: `None` for a connector that is not a dict (the
      handler catches its `.get`). */
  function ProcessConnector(number: nat, name: string, c: Value): (r: Option<ConnectorInfo>) {
    if !c.Dict? then None
    else
      Some(ConnectorInfo(number, name,
        NewStyle.ConnField(c, "@FROMFIELD", "FROMFIELD"),
        NewStyle.ConnField(c, "@FROMINSTANCE", "FROMINSTANCE"),
        NewStyle.ConnField(c, "@FROMINSTANCETYPE", "FROMINSTANCETYPE"),
        NewStyle.ConnField(c, "@TOFIELD", "TOFIELD"),
        NewStyle.ConnField(c, "@TOINSTANCE", "TOINSTANCE"),
        NewStyle.ConnField(c, "@TOINSTANCETYPE", "TOINSTANCETYPE")))
  }

  /** `v` is what the connector gives for a field: the `@`-prefixed key when
      its value is truthy, else the plain key, else `''`. */
  predicate FieldFrom(c: Value, attr: string, plain: string, v: Value) {
    (Has(c, attr) && Truthy(Get(c, attr).value) ==> v == Get(c, attr).value)
    && (!(Has(c, attr) && Truthy(Get(c, attr).value)) && Has(c, plain) ==> v == Get(c, plain).value)
    && (!(Has(c, attr) && Truthy(Get(c, attr).value)) && !Has(c, plain) ==> v == Str(""))
  }

  lemma ConnFieldSpec(c: Value, attr: string, plain: string)
    requires c.Dict?
    ensures FieldFrom(c, attr, plain, NewStyle.ConnField(c, attr, plain))
  {
  }

  /** A record exactly for a dict connector, carrying the mapping's number
      and name and the six fields of the connector. */
  lemma ProcessConnectorSpec(number: nat, name: string, c: Value)
    ensures ProcessConnector(number, name, c).Some? <==> c.Dict?
    ensures ProcessConnector(number, name, c).Some? ==>
      var r := ProcessConnector(number, name, c).value;
      r.mappingNumber == number && r.mappingName == name
      && FieldFrom(c, "@FROMFIELD", "FROMFIELD", r.fromField)
      && FieldFrom(c, "@FROMINSTANCE", "FROMINSTANCE", r.fromInstance)
      && FieldFrom(c, "@FROMINSTANCETYPE", "FROMINSTANCETYPE", r.fromInstanceType)
      && FieldFrom(c, "@TOFIELD", "TOFIELD", r.toField)
      && FieldFrom(c, "@TOINSTANCE", "TOINSTANCE", r.toInstance)
      && FieldFrom(c, "@TOINSTANCETYPE", "TOINSTANCETYPE", r.toInstanceType)
  {
    if c.Dict? {
      ConnFieldSpec(c, "@FROMFIELD", "FROMFIELD");
      ConnFieldSpec(c, "@FROMINSTANCE", "FROMINSTANCE");
      ConnFieldSpec(c, "@FROMINSTANCETYPE", "FROMINSTANCETYPE");
      ConnFieldSpec(c, "@TOFIELD", "TOFIELD");
      ConnFieldSpec(c, "@TOINSTANCE", "TOINSTANCE");
      ConnFieldSpec(c, "@TOINSTANCETYPE", "TOINSTANCETYPE");
    }
  }

  function Processor(number: nat, name: string): (r: Value -> Option<ConnectorInfo>) {
    c => ProcessConnector(number, name, c)
  }

  predicate IsDict(v: Value) {
    v.Dict?
  }

  // ---------------------------------------------------------------- the workflow

  /** The records of one mapping; `_get_mapping_name` and the `.get` of
      `_extract_connectors_from_mapping` raise on a mapping that is not a
      dict, and nothing catches that. */
  function MappingRecords(m: Value, number: nat): (r: Result<seq<ConnectorInfo>, string>) {
    if !m.Dict? then Err(WrongShape)
    else Ok(FilterSome(LogicConn.ConnectorsOf(m), Processor(number, LogicConn.MappingName(m))))
  }

  /** A mapping yields one record per dict connector, in connector order,
      each the record of that connector. */
  lemma MappingRecordsSpec(m: Value, number: nat)
    requires m.Dict?
    ensures var cs := LogicConn.ConnectorsOf(m);
      var ds := Where(cs, IsDict);
      var recs := MappingRecords(m, number).value;
      |recs| == |ds|
      && forall i | 0 <= i < |ds| :: ProcessConnector(number, LogicConn.MappingName(m), ds[i]) == Some(recs[i])
  {
    var cs := LogicConn.ConnectorsOf(m);
    var f := Processor(number, LogicConn.MappingName(m));
    forall x | x in cs ensures f(x).Some? <==> IsDict(x) {
      ProcessConnectorSpec(number, LogicConn.MappingName(m), x);
    }
    FilterSomeAsWhere(cs, f, IsDict);
  }

  /** The mappings in turn, numbered from 1. */
  function CsvRun(ms: seq<Value>): (r: Result<seq<ConnectorInfo>, string>) {
    if |ms| == 0 then Ok([])
    else
      match CsvRun(ms[..|ms| - 1])
      case Err(e) => Err(e)
      case Ok(recs) =>
        match MappingRecords(ms[|ms| - 1], |ms|)
        case Err(e) => Err(e)
        case Ok(more) => Ok(recs + more)
  }

  lemma CsvRunPrefix(ms: seq<Value>, k: nat)
    requires k < |ms|
    ensures CsvRun(ms[..k + 1]) ==
      match CsvRun(ms[..k])
      case Err(e) => Err(e)
      case Ok(recs) => (match MappingRecords(ms[k], k + 1) case Err(e) => Err(e) case Ok(more) => Ok(recs + more))
  {
    assert ms[..k + 1][..k] == ms[..k];
  }

  /** Once a mapping raises, the whole run raises. */
  lemma {:induction false} CsvRunErr(ms: seq<Value>, k: nat)
    requires k <= |ms| && CsvRun(ms[..k]).Err?
    ensures CsvRun(ms).Err?
    decreases |ms| - k
  {
    if k < |ms| {
      var pre := ms[..|ms| - 1];
      assert pre[..k] == ms[..k];
      CsvRunErr(pre, k);
    } else {
      assert ms[..k] == ms;
    }
  }

  /** `_process_workflow_data` before the CSV is written. */
  function CsvWorkflow(w: Value): (r: Result<seq<ConnectorInfo>, string>) {
    var ms := CsvMappings(w);
    if |ms| == 0 then Ok([]) else CsvRun(ms)
  }

  /** The number of dict connectors in the mappings. */
  function DictConnectors(ms: seq<Value>): (r: nat)
    requires forall m | m in ms :: m.Dict?
  {
    if |ms| == 0 then 0
    else
      assert forall m | m in ms[..|ms| - 1] :: m in ms;
      DictConnectors(ms[..|ms| - 1]) + |Where(LogicConn.ConnectorsOf(ms[|ms| - 1]), IsDict)|
  }

  /** The run succeeds exactly when every mapping is a dict; it then holds
      exactly one record per dict connector, each numbered after its
      mapping (from 1, in mapping order) and named after it. */
  lemma CsvRunSpec(ms: seq<Value>)
    ensures CsvRun(ms).Ok? <==> forall m | m in ms :: m.Dict?
    ensures CsvRun(ms).Ok? ==>
      |CsvRun(ms).value| == DictConnectors(ms) && Numbered(CsvRun(ms).value, LogicConn.MappingNames(ms))
  {
    CsvRunOk(ms);
    if CsvRun(ms).Ok? {
      CsvRunRecords(ms);
    }
  }

  lemma {:induction false} CsvRunOk(ms: seq<Value>)
    ensures CsvRun(ms).Ok? <==> forall m | m in ms :: m.Dict?
  {
    if |ms| > 0 {
      var pre := ms[..|ms| - 1];
      var m := ms[|ms| - 1];
      assert ms == pre + [m];
      CsvRunOk(pre);
      assert forall x | x in ms :: x in pre || x == m;
    }
  }

  lemma {:induction false} CsvRunRecords(ms: seq<Value>)
    requires CsvRun(ms).Ok?
    ensures forall m | m in ms :: m.Dict?
    ensures |CsvRun(ms).value| == DictConnectors(ms) && Numbered(CsvRun(ms).value, LogicConn.MappingNames(ms))
  {
    CsvRunOk(ms);
    if |ms| > 0 {
      var pre := ms[..|ms| - 1];
      var m := ms[|ms| - 1];
      SplitLast(ms);
      CsvRunRecords(pre);
      MappingRecordsSpec(m, |ms|);
      var recs := CsvRun(pre).value;
      var more := MappingRecords(m, |ms|).value;
      assert CsvRun(ms).value == recs + more;
      forall r | r in more ensures r.mappingNumber == |ms| && r.mappingName == LogicConn.MappingName(m) {
        var i :| 0 <= i < |more| && more[i] == r;
      }
      LogicConn.MappingNamesPrefix(ms);
      NumberedStep(LogicConn.MappingNames(ms), recs, more);
    }
  }

  /** Records numbered after the mappings they come from: from 1, never
      past the number of mappings, each named after its mapping, and in the
      order of the mappings. */
  predicate Numbered(recs: seq<ConnectorInfo>, names: seq<string>) {
    (forall r | r in recs :: 1 <= r.mappingNumber <= |names| && r.mappingName == names[r.mappingNumber - 1])
    && forall i, j | 0 <= i < j < |recs| :: recs[i].mappingNumber <= recs[j].mappingNumber
  }

  lemma NumberedStep(names: seq<string>, p0: seq<ConnectorInfo>, q0: seq<ConnectorInfo>)
    requires |names| > 0 && Numbered(p0, names[..|names| - 1])
    requires forall r | r in q0 :: r.mappingNumber == |names| && r.mappingName == names[|names| - 1]
    ensures Numbered(p0 + q0, names)
  {
    var recs := p0 + q0;
    forall i, j | 0 <= i < j < |recs|
      ensures recs[i].mappingNumber <= recs[j].mappingNumber
    {
      if j >= |p0| {
        assert recs[j] in q0;
        if i < |p0| {
          assert recs[i] in p0;
        } else {
          assert recs[i] in q0;
        }
      }
    }
  }

  // ---------------------------------------------------------------- the extractor

  /** The test of `filter_by_instance_type`: the source type first, the
      target type only when the source does not match; lower-casing a type
      that is not a string raises. */
  function TypeMatch(lowered: string, c: ConnectorInfo): (r: Result<bool, string>) {
    match LogicConn.TypeHas(c.fromInstanceType, lowered)
    case Err(e) => Err(e)
    case Ok(true) => Ok(true)
    case Ok(false) => LogicConn.TypeHas(c.toInstanceType, lowered)
  }

  class ConnCsvExtractor {
    var connectorsData: seq<ConnectorInfo>
    /** `self.workflow_name`, absent until a workflow name is found. */
    var workflowName: Option<Value>

    constructor()
      ensures connectorsData == [] && workflowName == None
    {
      connectorsData := [];
      workflowName := None;
    }

    /** `_extract_mappings`, which records the workflow name on the way. */
    method ExtractMappings(w: Value) returns (ms: seq<Value>)
      modifies this
      ensures ms == CsvMappings(w)
      ensures workflowName == if WorkflowName(w).Ok? then Some(WorkflowName(w).value) else old(workflowName)
      ensures connectorsData == old(connectorsData)
    {
      var name := WorkflowName(w);
      if name.Err? {
        return [];
      }
      workflowName := Some(name.value);
      var folder := FolderVia(w);
      if folder.Err? {
        return [];
      }
      var md := FolderMapping(folder.value);
      if md.Err? {
        return [];
      }
      ms := AsList(md.value);
    }

    /** The connector loop of one mapping. */
    method ProcessMapping(m: Value, number: nat) returns (r: Result<(), string>)
      modifies this
      ensures r.Ok? <==> MappingRecords(m, number).Ok?
      ensures r.Ok? ==> connectorsData == old(connectorsData) + MappingRecords(m, number).value
      ensures workflowName == old(workflowName)
    {
      if !m.Dict? {
        return Err(WrongShape);
      }
      var name := LogicConn.MappingName(m);
      var cs := LogicConn.ConnectorsOf(m);
      connectorsData := AppendKept(cs, Processor(number, name), connectorsData);
      return Ok(());
    }

    /** The mapping loop of `_process_workflow_data`, numbering the
        mappings from 1. */
    method ProcessMappings(ms: seq<Value>) returns (r: Result<(), string>)
      modifies this
      ensures r.Ok? <==> CsvRun(ms).Ok?
      ensures r.Ok? ==> connectorsData == old(connectorsData) + CsvRun(ms).value
      ensures workflowName == old(workflowName)
    {
      ghost var done: seq<ConnectorInfo> := [];
      for k := 0 to |ms|
        invariant CsvRun(ms[..k]) == Ok(done)
        invariant connectorsData == old(connectorsData) + done
        invariant workflowName == old(workflowName)
      {
        CsvRunPrefix(ms, k);
        var x := ProcessMapping(ms[k], k + 1);
        if x.Err? {
          CsvRunErr(ms, k + 1);
          return Err(x.error);
        }
        ConcatAssoc(old(connectorsData), done, MappingRecords(ms[k], k + 1).value);
        done := done + MappingRecords(ms[k], k + 1).value;
      }
      assert ms[..|ms|] == ms;
      return Ok(());
    }

    /** `_process_workflow_data`: the records are reset, then the
        mappings are processed in turn. */
    method ProcessWorkflowData(w: Value) returns (r: Result<seq<ConnectorInfo>, string>)
      modifies this
      ensures r.Ok? <==> CsvWorkflow(w).Ok?
      ensures r.Ok? ==> r.value == connectorsData == CsvWorkflow(w).value
      ensures workflowName == if WorkflowName(w).Ok? then Some(WorkflowName(w).value) else old(workflowName)
    {
      connectorsData := [];
      var ms := ExtractMappings(w);
      if |ms| == 0 {
        return Ok([]);
      }
      var x := ProcessMappings(ms);
      if x.Err? {
        return Err(x.error);
      }
      return Ok(connectorsData);
    }

    /** `filter_by_mapping`: a case-insensitive substring match. */
    function FilterByMapping(name: string): (r: seq<ConnectorInfo>)
      reads this
      ensures |r| <= |connectorsData|
      ensures forall c | c in r :: c in connectorsData && Contains(Lower(c.mappingName), Lower(name))
      ensures forall i | 0 <= i < |connectorsData| && Contains(Lower(connectorsData[i].mappingName), Lower(name)) ::
                connectorsData[i] in r
    {
      Where(connectorsData, (c: ConnectorInfo) => Contains(Lower(c.mappingName), Lower(name)))
    }

    /** `filter_by_instance_type`: it raises on the first record whose type
        it cannot lower-case. */
    function FilterByInstanceType(t: string): (r: Result<seq<ConnectorInfo>, string>)
      reads this
      ensures r.Ok? <==> forall i | 0 <= i < |connectorsData| :: TypeMatch(Lower(t), connectorsData[i]).Ok?
      ensures r.Ok? ==> forall c | c in r.value :: c in connectorsData && TypeMatch(Lower(t), c) == Ok(true)
      ensures r.Ok? ==> forall i | 0 <= i < |connectorsData| && TypeMatch(Lower(t), connectorsData[i]) == Ok(true) ::
                connectorsData[i] in r.value
    {
      if forall i | 0 <= i < |connectorsData| :: TypeMatch(Lower(t), connectorsData[i]).Ok? then
        Ok(Where(connectorsData, (c: ConnectorInfo) => TypeMatch(Lower(t), c) == Ok(true)))
      else Err(WrongShape)
    }
  }
}
