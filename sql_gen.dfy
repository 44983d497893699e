/** The INSERT generator: a JSON payload with a policy at the top level, a
    `vehicleList` and a `registrantList` becomes one `INSERT` statement for
    the policy table, one per vehicle and one per registrant (driver), the
    columns and JSON paths of each table coming from a mapping. */
module SqlGen {
  import opened Wrappers
  import opened Text
  import opened Json
  import opened Seqs

  const PolicyTable := "DMV_POLICY"
  const VehicleTable := "DMV_VEHICLE"
  const DriverTable := "DMV_DRIVER"
  const FullName := "FULL_NAME"
  const RegistrantId := "registrantId"
  const BusinessName := "businessName"
  const VehicleList := "vehicleList"
  const RegistrantList := "registrantList"
  const VehiclePrefix := "vehicleList[*]."
  const DriverPrefix := "registrantList[*]."

  /** One entry of a table's `fields` in the mapping: the column and the
      `json_path` its value is read from. */
  datatype Field = Field(column: string, jsonPath: string)

  /** The `fields` of the three tables, in the mapping's order. */
  datatype Mapping = Mapping(policy: seq<Field>, vehicle: seq<Field>, driver: seq<Field>)

  /** A row about to be written: the table and its columns with their
      values, in the order of the row dict. */
  datatype Insert = Insert(table: string, row: seq<Entry>)

  function Columns(fields: seq<Field>): (cs: seq<string>)
    ensures |cs| == |fields| && forall i | 0 <= i < |fields| :: cs[i] == fields[i].column
  {
    seq(|fields|, i requires 0 <= i < |fields| => fields[i].column)
  }

  /** The fields come from a dict, so no column is named twice. */
  predicate Distinct(fields: seq<Field>) {
    forall i, j | 0 <= i < j < |fields| :: fields[i].column != fields[j].column
  }

  // ---------------------------------------------------------------- rendering

  /** `f"'{v}'" if v else 'NULL'`. */
  function SqlValue(v: Value): (r: string) {
    if Truthy(v) then "'" + Stringify(v) + "'" else "NULL"
  }

  function SqlValues(row: seq<Entry>): (vs: seq<string>)
    ensures |vs| == |row| && forall i | 0 <= i < |row| :: vs[i] == SqlValue(row[i].value)
  {
    seq(|row|, i requires 0 <= i < |row| => SqlValue(row[i].value))
  }

  /** `f"INSERT INTO T ({columns}) VALUES ({values});"`. */
  function Render(ins: Insert): (r: string) {
    "INSERT INTO " + ins.table + " (" + Join(", ", Keys(ins.row)) + ") VALUES ("
      + Join(", ", SqlValues(ins.row)) + ");"
  }

  function Rendered(ins: seq<Insert>): (ss: seq<string>)
    ensures |ss| == |ins| && forall i | 0 <= i < |ins| :: ss[i] == Render(ins[i])
  {
    seq(|ins|, i requires 0 <= i < |ins| => Render(ins[i]))
  }

  lemma RenderedAppend(ins: seq<Insert>, x: Insert)
    ensures Rendered(ins + [x]) == Rendered(ins) + [Render(x)]
  {
    assert forall i | 0 <= i < |ins| :: (ins + [x])[i] == ins[i];
  }

  /** A value is written as `NULL` exactly when it is falsy; a truthy value
      is written between single quotes, a string as its own text. */
  lemma SqlValueSpec(v: Value)
    ensures SqlValue(v) == "NULL" <==> !Truthy(v)
    ensures Truthy(v) ==> |SqlValue(v)| >= 2 && SqlValue(v)[0] == '\'' && SqlValue(v)[|SqlValue(v)| - 1] == '\''
    ensures v.Str? && v.s != "" ==> SqlValue(v) == "'" + v.s + "'"
  {
    if Truthy(v) {
      assert SqlValue(v)[0] == '\'';
    }
  }

  /** Every statement names its table, then lists as many columns as
      values: column `i` is the row's key `i` and value `i` is its value
      rendered. */
  lemma RenderSpec(ins: Insert)
    ensures var cols := Keys(ins.row); var vals := SqlValues(ins.row);
      Render(ins) == "INSERT INTO " + ins.table + " (" + Join(", ", cols) + ") VALUES (" + Join(", ", vals) + ");"
      && |cols| == |vals| == |ins.row|
      && forall i | 0 <= i < |ins.row| :: cols[i] == ins.row[i].key && vals[i] == SqlValue(ins.row[i].value)
  {
  }

  // ---------------------------------------------------------------- rows

  /** The fields with `prefix` replaced by nothing in every `json_path`:
      the paths a list item is read at. */
  function Unprefixed(fields: seq<Field>, prefix: string): (r: seq<Field>)
    requires |prefix| > 0
    ensures |r| == |fields| && forall i | 0 <= i < |fields| ::
      r[i] == Field(fields[i].column, ReplaceAll(fields[i].jsonPath, prefix, ""))
  {
    seq(|fields|, i requires 0 <= i < |fields| => Field(fields[i].column, ReplaceAll(fields[i].jsonPath, prefix, "")))
  }

  /** A path written under the list's prefix is looked up without it. */
  lemma StripPrefix(prefix: string, rest: string)
    requires |prefix| > 0 && !Contains(rest, prefix)
    ensures ReplaceAll(prefix + rest, prefix, "") == rest
  {
    assert (prefix + rest)[..|prefix|] == prefix;
    assert (prefix + rest)[|prefix|..] == rest;
  }

  /** `{k: src.get(v['json_path'], None) for k, v in fields}`: raises when
      `src` is not a dict and there is a field to read. */
  function RowOf(src: Value, fields: seq<Field>): (r: Result<seq<Entry>, string>)
    decreases |fields|
  {
    if |fields| == 0 then Ok([])
    else
      var f := fields[|fields| - 1];
      match RowOf(src, fields[..|fields| - 1])
      case Err(e) => Err(e)
      case Ok(row) =>
        match PyGet(src, f.jsonPath, Null)
        case Err(e) => Err(e)
        case Ok(v) => Ok(Set(row, f.column, v))
  }

  /** The row has one column per field, in the fields' order, holding the
      value at the field's path or `None`. */
  lemma {:induction false} RowOfSpec(src: Value, fields: seq<Field>)
    requires Distinct(fields)
    ensures RowOf(src, fields).Ok? <==> src.Dict? || |fields| == 0
    ensures RowOf(src, fields).Ok? ==>
      var row := RowOf(src, fields).value;
      |row| == |fields| && forall i | 0 <= i < |fields| ::
        row[i] == Entry(fields[i].column, GetOr(src, fields[i].jsonPath, Null))
    decreases |fields|
  {
    if |fields| > 0 {
      var pre := fields[..|fields| - 1];
      var f := fields[|fields| - 1];
      assert forall i | 0 <= i < |pre| :: pre[i] == fields[i];
      RowOfSpec(src, pre);
      if src.Dict? {
        var row := RowOf(src, pre).value;
        var v := GetOr(src, f.jsonPath, Null);
        assert forall i | 0 <= i < |row| :: row[i].key != f.column;
        PositionUnique(row, f.column, |row|);
        var r := Set(row, f.column, v);
        assert r == row + [Entry(f.column, v)];
        assert RowOf(src, fields) == Ok(r);
        forall i | 0 <= i < |fields|
          ensures r[i] == Entry(fields[i].column, GetOr(src, fields[i].jsonPath, Null))
        {
          if i < |pre| {
            assert r[i] == row[i];
          }
        }
      }
    }
  }

  /** `Where` keeps distinct columns distinct. */
  lemma WhereDistinct(fields: seq<Field>, keep: Field -> bool)
    requires Distinct(fields)
    ensures Distinct(Where(fields, keep))
  {
    WhereSpec(fields, keep);
  }

  // ---------------------------------------------------------------- registrants

  /** A dict key must be hashable. */
  predicate Hashable(v: Value) {
    !v.List? && !v.Dict?
  }

  /** `r['registrantId']`, once `r` is known to have it. */
  function IdOf(r: Value): (res: Value) {
    GetOr(r, RegistrantId, Null)
  }

  /** `r['registrantId']` as the key of `r`: raises when `r` has no such
      key or the id cannot be a dict key. */
  function RegistrantPair(r: Value): (res: Result<(Value, Value), string>) {
    if Has(r, RegistrantId) && Hashable(IdOf(r)) then Ok((IdOf(r), r)) else Err(WrongShape)
  }

  /** `{r['registrantId']: r for r in registrants}`. */
  function RegistrantMap(registrants: Value): (r: Result<map<Value, Value>, string>) {
    match Iterate(registrants)
    case None => Err(WrongShape)
    case Some(rs) =>
      match MapAll(rs, RegistrantPair)
      case Err(e) => Err(e)
      case Ok(ps) => Ok(Store(map[], ps))
  }

  /** Every registrant has a hashable id, and the map holds exactly the
      registrants' ids. */
  lemma RegistrantMapKeys(registrants: Value)
    requires RegistrantMap(registrants).Ok?
    ensures var rs := Iterate(registrants).value;
      forall i | 0 <= i < |rs| :: Has(rs[i], RegistrantId) && Hashable(IdOf(rs[i]))
    ensures var rs := Iterate(registrants).value; var m := RegistrantMap(registrants).value;
      forall id :: id in m <==> exists i | 0 <= i < |rs| :: IdOf(rs[i]) == id
  {
    MapAllStoreSpec(Iterate(registrants).value, RegistrantPair);
  }

  /** Registrants sharing an id leave the last of them in the map. */
  lemma RegistrantMapLast(registrants: Value, i: nat)
    requires RegistrantMap(registrants).Ok?
    requires var rs := Iterate(registrants).value;
      i < |rs| && forall j | i < j < |rs| :: IdOf(rs[j]) != IdOf(rs[i])
    ensures var rs := Iterate(registrants).value; var m := RegistrantMap(registrants).value;
      IdOf(rs[i]) in m && m[IdOf(rs[i])] == rs[i]
  {
    var rs := Iterate(registrants).value;
    MapAllStoreSpec(rs, RegistrantPair);
    assert RegistrantPair(rs[i]).value.0 == IdOf(rs[i]);
  }

  /** `full_name if full_name else None`. */
  function NameOrNull(v: Value): (r: Value)
    ensures Truthy(v) ==> r == v
    ensures !Truthy(v) ==> r == Null
  {
    if Truthy(v) then v else Null
  }

  // ---------------------------------------------------------------- statements

  function PolicyInsert(fields: seq<Field>, data: Value): (r: Result<Insert, string>) {
    match RowOf(data, fields)
    case Err(e) => Err(e)
    case Ok(row) => Ok(Insert(PolicyTable, row))
  }

  predicate KeepField(f: Field) {
    f.column != FullName
  }

  /** The fields a vehicle row is built from: the mapping's vehicle fields
      other than `FULL_NAME`, read without `vehicleList[*].`. They do not
      depend on the vehicle, so they are computed once. */
  function VehicleFields(m: Mapping): (r: seq<Field>) {
    Unprefixed(Where(m.vehicle, KeepField), VehiclePrefix)
  }

  /** The fields a driver row is built from: the mapping's driver fields,
      read without `registrantList[*].`. */
  function DriverFields(m: Mapping): (r: seq<Field>) {
    Unprefixed(m.driver, DriverPrefix)
  }

  /** One vehicle: its row, then `FULL_NAME` from the registrant its truthy
      `registrantId` names, `None` when that registrant's `businessName`
      is empty. */
  function VehicleInsert(fields: seq<Field>, regs: map<Value, Value>, vehicle: Value): (r: Result<Insert, string>) {
    match RowOf(vehicle, fields)
    case Err(e) => Err(e)
    case Ok(row) =>
      match PyGet(vehicle, RegistrantId, Null)
      case Err(e) => Err(e)
      case Ok(rid) =>
        if !Truthy(rid) then Ok(Insert(VehicleTable, row))
        else if !Hashable(rid) then Err(WrongShape)
        else if rid !in regs then Ok(Insert(VehicleTable, row))
        else
          match PyGet(regs[rid], BusinessName, Str(""))
          case Err(e) => Err(e)
          case Ok(name) => Ok(Insert(VehicleTable, Set(row, FullName, NameOrNull(name))))
  }

  /** One driver: its row, then `FULL_NAME` from its own `businessName`,
      `None` when that is empty. */
  function DriverInsert(fields: seq<Field>, driver: Value): (r: Result<Insert, string>) {
    match RowOf(driver, fields)
    case Err(e) => Err(e)
    case Ok(row) =>
      match PyGet(driver, BusinessName, Str(""))
      case Err(e) => Err(e)
      case Ok(name) => Ok(Insert(DriverTable, Set(row, FullName, NameOrNull(name))))
  }

  function VehicleStep(fields: seq<Field>, regs: map<Value, Value>): (r: Value -> Result<Insert, string>) {
    v => VehicleInsert(fields, regs, v)
  }

  function DriverStep(fields: seq<Field>): (r: Value -> Result<Insert, string>) {
    d => DriverInsert(fields, d)
  }

  /** The vehicle statements, one per vehicle the loop visits. */
  function VehicleInserts(fields: seq<Field>, regs: map<Value, Value>, vehicles: Value): (r: Result<seq<Insert>, string>) {
    match Iterate(vehicles)
    case None => Err(WrongShape)
    case Some(vs) => MapAll(vs, VehicleStep(fields, regs))
  }

  /** The driver statements, one per registrant the loop visits. */
  function DriverInserts(fields: seq<Field>, registrants: Value): (r: Result<seq<Insert>, string>) {
    match Iterate(registrants)
    case None => Err(WrongShape)
    case Some(ds) => MapAll(ds, DriverStep(fields))
  }

  /** The vehicle and driver statements once the policy row is known. */
  function ListInserts(m: Mapping, vehicles: Value, registrants: Value): (r: Result<seq<Insert>, string>) {
    match RegistrantMap(registrants)
    case Err(e) => Err(e)
    case Ok(regs) =>
      match VehicleInserts(VehicleFields(m), regs, vehicles)
      case Err(e) => Err(e)
      case Ok(vins) =>
        match DriverInserts(DriverFields(m), registrants)
        case Err(e) => Err(e)
        case Ok(dins) => Ok(vins + dins)
  }

  /** `generate_insert_statements(mapping, data)` before rendering. */
  function Inserts(m: Mapping, data: Value): (r: Result<seq<Insert>, string>) {
    match PolicyInsert(m.policy, data)
    case Err(e) => Err(e)
    case Ok(p) =>
      match PyGet(data, VehicleList, List([]))
      case Err(e) => Err(e)
      case Ok(vehicles) =>
        match PyGet(data, RegistrantList, List([]))
        case Err(e) => Err(e)
        case Ok(registrants) =>
          match ListInserts(m, vehicles, registrants)
          case Err(e) => Err(e)
          case Ok(rest) => Ok([p] + rest)
  }

  /** `generate_insert_statements(mapping, data)`. */
  function Statements(m: Mapping, data: Value): (r: Result<seq<string>, string>) {
    match Inserts(m, data)
    case Err(e) => Err(e)
    case Ok(ins) => Ok(Rendered(ins))
  }

  // ---------------------------------------------------------------- properties

  /** The vehicle statements are produced exactly when the vehicles can
      be iterated and every vehicle yields one, and then they are the
      vehicles' statements in order. */
  lemma VehicleInsertsSpec(fields: seq<Field>, regs: map<Value, Value>, vehicles: Value)
    ensures VehicleInserts(fields, regs, vehicles).Ok? <==>
      Iterate(vehicles).Some? &&
      forall i | 0 <= i < |Iterate(vehicles).value| :: VehicleInsert(fields, regs, Iterate(vehicles).value[i]).Ok?
    ensures VehicleInserts(fields, regs, vehicles).Ok? ==>
      var vins := VehicleInserts(fields, regs, vehicles).value;
      var vs := Iterate(vehicles).value;
      |vins| == |vs| &&
      forall i | 0 <= i < |vs| :: vins[i] == VehicleInsert(fields, regs, vs[i]).value && vins[i].table == VehicleTable
  {
    if Iterate(vehicles).Some? {
      var vs := Iterate(vehicles).value;
      MapAllSpec(vs, VehicleStep(fields, regs));
      forall i | 0 <= i < |vs| ensures VehicleStep(fields, regs)(vs[i]) == VehicleInsert(fields, regs, vs[i]) { }
      VehicleTables(fields, regs, vs);
    }
  }

  /** The driver statements are produced exactly when the registrants can
      be iterated and every one yields one, and then they are the
      registrants' statements in order. */
  lemma DriverInsertsSpec(fields: seq<Field>, registrants: Value)
    ensures DriverInserts(fields, registrants).Ok? <==>
      Iterate(registrants).Some? &&
      forall j | 0 <= j < |Iterate(registrants).value| :: DriverInsert(fields, Iterate(registrants).value[j]).Ok?
    ensures DriverInserts(fields, registrants).Ok? ==>
      var dins := DriverInserts(fields, registrants).value;
      var ds := Iterate(registrants).value;
      |dins| == |ds| &&
      forall j | 0 <= j < |ds| :: dins[j] == DriverInsert(fields, ds[j]).value && dins[j].table == DriverTable
  {
    if Iterate(registrants).Some? {
      var ds := Iterate(registrants).value;
      MapAllSpec(ds, DriverStep(fields));
      forall j | 0 <= j < |ds| ensures DriverStep(fields)(ds[j]) == DriverInsert(fields, ds[j]) { }
      DriverTables(fields, ds);
    }
  }

  /** On a dict payload the statements are the policy's, then one per
      vehicle in order, then one per registrant in order; they are all
      produced exactly when the registrant map and every vehicle and
      driver statement can be. */
  lemma InsertsSpec(m: Mapping, data: Value)
    requires data.Dict?
    ensures var registrants := GetOr(data, RegistrantList, List([]));
      Inserts(m, data).Ok? <==>
        (RegistrantMap(registrants).Ok?
          && VehicleInserts(VehicleFields(m), RegistrantMap(registrants).value, GetOr(data, VehicleList, List([]))).Ok?
          && DriverInserts(DriverFields(m), registrants).Ok?)
    ensures var registrants := GetOr(data, RegistrantList, List([]));
      Inserts(m, data).Ok? ==>
        var vins := VehicleInserts(VehicleFields(m), RegistrantMap(registrants).value, GetOr(data, VehicleList, List([]))).value;
        var dins := DriverInserts(DriverFields(m), registrants).value;
        Inserts(m, data).value == [PolicyInsert(m.policy, data).value] + (vins + dins)
        && PolicyInsert(m.policy, data).value.table == PolicyTable
  {
    RowOfOk(data, m.policy);
  }

  /** A dict payload always yields its policy row. */
  lemma {:induction false} RowOfOk(src: Value, fields: seq<Field>)
    requires src.Dict?
    ensures RowOf(src, fields).Ok?
    decreases |fields|
  {
    if |fields| > 0 {
      RowOfOk(src, fields[..|fields| - 1]);
    }
  }

  lemma VehicleTables(fields: seq<Field>, regs: map<Value, Value>, vs: seq<Value>)
    ensures forall i | 0 <= i < |vs| && VehicleInsert(fields, regs, vs[i]).Ok? ::
      VehicleInsert(fields, regs, vs[i]).value.table == VehicleTable
  {
  }

  lemma DriverTables(fields: seq<Field>, ds: seq<Value>)
    ensures forall j | 0 <= j < |ds| && DriverInsert(fields, ds[j]).Ok? ::
      DriverInsert(fields, ds[j]).value.table == DriverTable
  {
  }

  /** With JSON lists for `vehicleList` and `registrantList` (or none at
      all), there are exactly 1 + |vehicleList| + |registrantList|
      statements. */
  lemma StatementCount(m: Mapping, data: Value)
    requires data.Dict? && Statements(m, data).Ok?
    requires GetOr(data, VehicleList, List([])).List? && GetOr(data, RegistrantList, List([])).List?
    ensures |Statements(m, data).value| ==
      1 + |GetOr(data, VehicleList, List([])).items| + |GetOr(data, RegistrantList, List([])).items|
  {
    InsertsSpec(m, data);
    var registrants := GetOr(data, RegistrantList, List([]));
    VehicleInsertsSpec(VehicleFields(m), RegistrantMap(registrants).value, GetOr(data, VehicleList, List([])));
    DriverInsertsSpec(DriverFields(m), registrants);
  }

  /** Stripping a prefix keeps the columns. */
  lemma UnprefixedDistinct(fields: seq<Field>, prefix: string)
    requires |prefix| > 0 && Distinct(fields)
    ensures Distinct(Unprefixed(fields, prefix)) && Columns(Unprefixed(fields, prefix)) == Columns(fields)
  {
    assert Columns(Unprefixed(fields, prefix)) == Columns(fields);
  }

  /** A vehicle that yields a statement is a dict; its row is the fields'
      row, with `FULL_NAME` set when its truthy id names a registrant. */
  lemma VehicleShape(fields: seq<Field>, regs: map<Value, Value>, vehicle: Value)
    requires VehicleInsert(fields, regs, vehicle).Ok?
    ensures vehicle.Dict? && RowOf(vehicle, fields).Ok?
    ensures var rid := GetOr(vehicle, RegistrantId, Null);
      var row := RowOf(vehicle, fields).value;
      VehicleInsert(fields, regs, vehicle).value.row ==
        if Truthy(rid) && rid in regs then Set(row, FullName, NameOrNull(GetOr(regs[rid], BusinessName, Str(""))))
        else row
  {
  }

  /** Setting a key no entry has appends it. */
  lemma SetAbsent(row: seq<Entry>, k: string, x: Value)
    requires forall i | 0 <= i < |row| :: row[i].key != k
    ensures Set(row, k, x) == row + [Entry(k, x)]
    ensures Keys(Set(row, k, x)) == Keys(row) + [k]
  {
    PositionUnique(row, k, |row|);
    SetKeys(row, k, x);
  }

  /** A vehicle row has the mapping's columns other than `FULL_NAME`, in
      the mapping's order; `FULL_NAME` is appended exactly when the
      vehicle's truthy `registrantId` names a registrant. */
  lemma VehicleKeys(m: Mapping, regs: map<Value, Value>, vehicle: Value)
    requires Distinct(m.vehicle) && VehicleInsert(VehicleFields(m), regs, vehicle).Ok?
    ensures var row := VehicleInsert(VehicleFields(m), regs, vehicle).value.row;
      var rid := GetOr(vehicle, RegistrantId, Null);
      vehicle.Dict?
      && Keys(row) == Columns(Where(m.vehicle, KeepField)) + (if Truthy(rid) && rid in regs then [FullName] else [])
  {
    var keep := Where(m.vehicle, KeepField);
    var fields := VehicleFields(m);
    VehicleShape(fields, regs, vehicle);
    WhereDistinct(m.vehicle, KeepField);
    UnprefixedDistinct(keep, VehiclePrefix);
    RowOfSpec(vehicle, fields);
    var row := RowOf(vehicle, fields).value;
    assert Keys(row) == Columns(keep);
    var rid := GetOr(vehicle, RegistrantId, Null);
    if Truthy(rid) && rid in regs {
      assert forall i | 0 <= i < |keep| :: KeepField(keep[i]);
      SetAbsent(row, FullName, NameOrNull(GetOr(regs[rid], BusinessName, Str(""))));
    }
  }

  /** Each kept vehicle column reads its path without `vehicleList[*].`;
      an appended `FULL_NAME` holds the registrant's `businessName`, or
      `None` when that is empty. */
  lemma VehicleValues(m: Mapping, regs: map<Value, Value>, vehicle: Value)
    requires Distinct(m.vehicle) && VehicleInsert(VehicleFields(m), regs, vehicle).Ok?
    ensures var keep := Where(m.vehicle, KeepField);
      var row := VehicleInsert(VehicleFields(m), regs, vehicle).value.row;
      var rid := GetOr(vehicle, RegistrantId, Null);
      |row| >= |keep|
      && (forall i | 0 <= i < |keep| ::
            row[i].value == GetOr(vehicle, ReplaceAll(keep[i].jsonPath, VehiclePrefix, ""), Null))
      && (Truthy(rid) && rid in regs ==>
            |row| == |keep| + 1 && row[|keep|].value == NameOrNull(GetOr(regs[rid], BusinessName, Str(""))))
  {
    var keep := Where(m.vehicle, KeepField);
    var fields := VehicleFields(m);
    VehicleShape(fields, regs, vehicle);
    WhereDistinct(m.vehicle, KeepField);
    UnprefixedDistinct(keep, VehiclePrefix);
    RowOfSpec(vehicle, fields);
    var row := RowOf(vehicle, fields).value;
    var rid := GetOr(vehicle, RegistrantId, Null);
    if Truthy(rid) && rid in regs {
      assert forall i | 0 <= i < |keep| :: KeepField(keep[i]);
      SetAbsent(row, FullName, NameOrNull(GetOr(regs[rid], BusinessName, Str(""))));
    }
  }

  /** A driver that yields a statement is a dict; its row is the fields'
      row with `FULL_NAME` set. */
  lemma DriverShape(fields: seq<Field>, driver: Value)
    requires DriverInsert(fields, driver).Ok?
    ensures driver.Dict? && RowOf(driver, fields).Ok?
    ensures DriverInsert(fields, driver).value.row ==
      Set(RowOf(driver, fields).value, FullName, NameOrNull(GetOr(driver, BusinessName, Str(""))))
  {
  }

  /** A driver row always carries `FULL_NAME` from the driver's own
      `businessName`, `None` when that is empty, and every other mapping
      column read at its path without `registrantList[*].`. */
  lemma DriverValues(m: Mapping, driver: Value)
    requires Distinct(m.driver) && DriverInsert(DriverFields(m), driver).Ok?
    ensures var row := DriverInsert(DriverFields(m), driver).value.row;
      driver.Dict?
      && Lookup(row, FullName) == Some(NameOrNull(GetOr(driver, BusinessName, Str(""))))
      && (forall i | 0 <= i < |m.driver| && m.driver[i].column != FullName ::
            Lookup(row, m.driver[i].column) == Some(GetOr(driver, ReplaceAll(m.driver[i].jsonPath, DriverPrefix, ""), Null)))
  {
    var fields := DriverFields(m);
    DriverShape(fields, driver);
    UnprefixedDistinct(m.driver, DriverPrefix);
    RowOfSpec(driver, fields);
    var row := RowOf(driver, fields).value;
    SetSpec(row, FullName, NameOrNull(GetOr(driver, BusinessName, Str(""))));
    forall i | 0 <= i < |m.driver| && m.driver[i].column != FullName
      ensures Lookup(row, m.driver[i].column) == Some(GetOr(driver, ReplaceAll(m.driver[i].jsonPath, DriverPrefix, ""), Null))
    {
      LookupDistinct(row, i);
    }
  }

  /** The driver columns are the mapping's, in its order, with `FULL_NAME`
      in the mapping's place when the mapping names it and appended
      otherwise. */
  lemma DriverKeys(m: Mapping, driver: Value)
    requires Distinct(m.driver) && DriverInsert(DriverFields(m), driver).Ok?
    ensures var row := DriverInsert(DriverFields(m), driver).value.row;
      (FullName in Columns(m.driver) ==> Keys(row) == Columns(m.driver))
      && (FullName !in Columns(m.driver) ==> Keys(row) == Columns(m.driver) + [FullName])
  {
    var fields := DriverFields(m);
    DriverShape(fields, driver);
    UnprefixedDistinct(m.driver, DriverPrefix);
    RowOfSpec(driver, fields);
    var row := RowOf(driver, fields).value;
    var name := NameOrNull(GetOr(driver, BusinessName, Str("")));
    assert Keys(row) == Columns(m.driver);
    SetKeys(row, FullName, name);
    if FullName in Columns(m.driver) {
      var k :| 0 <= k < |fields| && fields[k].column == FullName;
      LookupDistinct(row, k);
    } else {
      PositionLookup(row, FullName);
    }
  }

  /** In a row without repeated keys, looking a key up finds its entry. */
  lemma LookupDistinct(row: seq<Entry>, i: nat)
    requires i < |row| && DistinctKeys(row)
    ensures Lookup(row, row[i].key) == Some(row[i].value)
  {
    PositionUnique(row, row[i].key, i);
  }

  // ---------------------------------------------------------------- program

  /** One vehicle row, then `vehicle_data['FULL_NAME'] = ...` when its
      registrant is known. */
  method BuildVehicle(fields: seq<Field>, regs: map<Value, Value>, vehicle: Value) returns (r: Result<Insert, string>)
    ensures r == VehicleInsert(fields, regs, vehicle)
  {
    var row := RowOf(vehicle, fields);
    if row.Err? {
      return Err(row.error);
    }
    var rid := PyGet(vehicle, RegistrantId, Null);
    if rid.Err? {
      return Err(rid.error);
    }
    var data := row.value;
    if Truthy(rid.value) {
      if !Hashable(rid.value) {
        return Err(WrongShape);
      }
      if rid.value in regs {
        var name := PyGet(regs[rid.value], BusinessName, Str(""));
        if name.Err? {
          return Err(name.error);
        }
        data := Set(data, FullName, NameOrNull(name.value));
      }
    }
    return Ok(Insert(VehicleTable, data));
  }

  /** One driver row, then `driver_data['FULL_NAME'] = ...`. */
  method BuildDriver(fields: seq<Field>, driver: Value) returns (r: Result<Insert, string>)
    ensures r == DriverInsert(fields, driver)
  {
    var row := RowOf(driver, fields);
    if row.Err? {
      return Err(row.error);
    }
    var name := PyGet(driver, BusinessName, Str(""));
    if name.Err? {
      return Err(name.error);
    }
    var data := Set(row.value, FullName, NameOrNull(name.value));
    return Ok(Insert(DriverTable, data));
  }

  /** The vehicle loop: appends one statement per vehicle. */
  method AppendVehicles(fields: seq<Field>, regs: map<Value, Value>, vs: seq<Value>, statements: seq<string>)
    returns (r: Result<seq<string>, string>)
    ensures r == match MapAll(vs, VehicleStep(fields, regs))
      case Err(e) => Err(e)
      case Ok(vins) => Ok(statements + Rendered(vins))
  {
    var out := statements;
    ghost var done: seq<Insert> := [];
    var i := 0;
    while i < |vs|
      invariant 0 <= i <= |vs|
      invariant MapAll(vs[..i], VehicleStep(fields, regs)) == Ok(done)
      invariant out == statements + Rendered(done)
    {
      MapAllPrefix(vs, i, VehicleStep(fields, regs));
      var ins := BuildVehicle(fields, regs, vs[i]);
      if ins.Err? {
        MapAllErr(vs, i + 1, VehicleStep(fields, regs));
        return Err(ins.error);
      }
      RenderedAppend(done, ins.value);
      out := out + [Render(ins.value)];
      done := done + [ins.value];
      i := i + 1;
    }
    assert vs[..i] == vs;
    return Ok(out);
  }

  /** The driver loop: appends one statement per registrant. */
  method AppendDrivers(fields: seq<Field>, ds: seq<Value>, statements: seq<string>)
    returns (r: Result<seq<string>, string>)
    ensures r == match MapAll(ds, DriverStep(fields))
      case Err(e) => Err(e)
      case Ok(dins) => Ok(statements + Rendered(dins))
  {
    var out := statements;
    ghost var done: seq<Insert> := [];
    var i := 0;
    while i < |ds|
      invariant 0 <= i <= |ds|
      invariant MapAll(ds[..i], DriverStep(fields)) == Ok(done)
      invariant out == statements + Rendered(done)
    {
      MapAllPrefix(ds, i, DriverStep(fields));
      var ins := BuildDriver(fields, ds[i]);
      if ins.Err? {
        MapAllErr(ds, i + 1, DriverStep(fields));
        return Err(ins.error);
      }
      RenderedAppend(done, ins.value);
      out := out + [Render(ins.value)];
      done := done + [ins.value];
      i := i + 1;
    }
    assert ds[..i] == ds;
    return Ok(out);
  }

  /** `for vehicle in vehicles`, after the list normalisation. */
  method AppendVehicleList(fields: seq<Field>, regs: map<Value, Value>, vehicles: Value, statements: seq<string>)
    returns (r: Result<seq<string>, string>)
    ensures r == match VehicleInserts(fields, regs, vehicles)
      case Err(e) => Err(e)
      case Ok(vins) => Ok(statements + Rendered(vins))
  {
    var vs := Iterate(vehicles);
    if vs.None? {
      return Err(WrongShape);
    }
    r := AppendVehicles(fields, regs, vs.value, statements);
  }

  /** `for driver in registrants`, after the list normalisation. */
  method AppendDriverList(fields: seq<Field>, registrants: Value, statements: seq<string>)
    returns (r: Result<seq<string>, string>)
    ensures r == match DriverInserts(fields, registrants)
      case Err(e) => Err(e)
      case Ok(dins) => Ok(statements + Rendered(dins))
  {
    var ds := Iterate(registrants);
    if ds.None? {
      return Err(WrongShape);
    }
    r := AppendDrivers(fields, ds.value, statements);
  }

  /** The registrant map, then the vehicle loop and the driver loop. */
  method AppendLists(m: Mapping, vehicles: Value, registrants: Value, statements: seq<string>)
    returns (r: Result<seq<string>, string>)
    ensures r == match ListInserts(m, vehicles, registrants)
      case Err(e) => Err(e)
      case Ok(rest) => Ok(statements + Rendered(rest))
  {
    var regs := RegistrantMap(registrants);
    if regs.Err? {
      return Err(regs.error);
    }
    var withVehicles := AppendVehicleList(VehicleFields(m), regs.value, vehicles, statements);
    if withVehicles.Err? {
      return Err(withVehicles.error);
    }
    r := AppendDriverList(DriverFields(m), registrants, withVehicles.value);
    if r.Ok? {
      ghost var vins := VehicleInserts(VehicleFields(m), regs.value, vehicles).value;
      ghost var dins := DriverInserts(DriverFields(m), registrants).value;
      RenderedConcat(statements, vins, dins);
    }
  }

  /** Rendering two runs of statements after some already rendered. */
  lemma RenderedConcat(before: seq<string>, a: seq<Insert>, b: seq<Insert>)
    ensures before + Rendered(a + b) == before + Rendered(a) + Rendered(b)
  {
    RenderedSplit(a, b);
    ConcatAssoc(before, Rendered(a), Rendered(b));
  }

  lemma RenderedSplit(a: seq<Insert>, b: seq<Insert>)
    ensures Rendered(a + b) == Rendered(a) + Rendered(b)
  {
    assert forall i | 0 <= i < |a| :: (a + b)[i] == a[i];
    assert forall i | 0 <= i < |b| :: (a + b)[|a| + i] == b[i];
  }

  /** `generate_insert_statements(mapping, data)`. */
  method GenerateInsertStatements(m: Mapping, data: Value) returns (r: Result<seq<string>, string>)
    ensures r == Statements(m, data)
  {
    var policy := PolicyInsert(m.policy, data);
    if policy.Err? {
      return Err(policy.error);
    }
    var vehicles := PyGet(data, VehicleList, List([]));
    if vehicles.Err? {
      return Err(vehicles.error);
    }
    var registrants := PyGet(data, RegistrantList, List([])).value;
    r := AppendLists(m, vehicles.value, registrants, [Render(policy.value)]);
    if r.Ok? {
      ghost var rest := ListInserts(m, vehicles.value, registrants).value;
      RenderedSplit([policy.value], rest);
      assert Rendered([policy.value]) == [Render(policy.value)];
    }
  }
}
