/** The Oracle-to-Snowflake DDL generator: column definitions read from an
    Oracle data-dictionary extract are grouped by table, their types are
    mapped to Snowflake types, and one `CREATE OR REPLACE TABLE` statement
    is written per requested table, each ending with an audit column. */
module OraToSnow {
  import opened Wrappers
  import opened Text
  import opened Seqs

  /** A row of the extract as `csv.DictReader` yields it: each header to
      the cell under it, `None` for a cell the row is too short to have. */
  type Row = map<string, Option<string>>

  const KeyError := "KeyError"
  /** A string method called on `None`. */
  const NoneAttribute := "AttributeError"

  /** `row.get(k)`: `None` for a missing header as for a missing cell. */
  function CellOr(row: Row, k: string): (r: Option<string>) {
    if k in row then row[k] else None
  }

  /** `row[k]` used as a string: the header must exist and the cell must
      be there. */
  function StrCell(row: Row, k: string): (r: Result<string, string>)
    ensures r.Ok? <==> k in row && row[k].Some?
    ensures r.Ok? ==> r.value == row[k].value
  {
    if k !in row then Err(KeyError)
    else if row[k].None? then Err(NoneAttribute)
    else Ok(row[k].value)
  }

  /** `f"{row[k]}"`: a missing cell is written as `None`. */
  function TextCell(row: Row, k: string): (r: Result<string, string>)
    ensures r.Ok? <==> k in row
  {
    if k !in row then Err(KeyError)
    else Ok(if row[k].None? then "None" else row[k].value)
  }

  // ---------------------------------------------------------------- _load_csv

  /** `row['TABLE_NAME'].upper()`, when the row has one. */
  function TableOf(row: Row): (r: Option<string>) {
    match StrCell(row, "TABLE_NAME")
    case Err(_) => None
    case Ok(name) => Some(Upper(name))
  }

  /** The number of leading rows that have a table name: reading stops at
      the first row without one, since the raise leaves the loop. */
  function NamedPrefix(rows: seq<Row>): (k: nat)
    ensures k <= |rows|
    ensures forall j | 0 <= j < k :: TableOf(rows[j]).Some?
    ensures k < |rows| ==> TableOf(rows[k]).None?
  {
    if |rows| == 0 || TableOf(rows[0]).None? then 0
    else
      var k := NamedPrefix(rows[1..]);
      assert forall j | 1 <= j < k + 1 :: rows[j] == rows[1..][j - 1];
      k + 1
  }

  /** The rows of one table, in their order. */
  function GroupOf(tables: map<string, seq<Row>>, t: string): (r: seq<Row>) {
    if t in tables then tables[t] else []
  }

  /** `tables[table_name].append(row)` for every row in order. */
  function Grouped(rows: seq<Row>): (r: map<string, seq<Row>>)
    requires forall j | 0 <= j < |rows| :: TableOf(rows[j]).Some?
  {
    if |rows| == 0 then map[]
    else
      var g := Grouped(rows[..|rows| - 1]);
      var t := TableOf(rows[|rows| - 1]).value;
      g[t := GroupOf(g, t) + [rows[|rows| - 1]]]
  }

  /** The rows whose upper-cased table name is `t`. */
  function InTable(t: string): (r: Row -> bool) {
    row => TableOf(row) == Some(t)
  }

  /** Each table holds exactly the rows named for it, in their order, and
      a table is present exactly when some row names it. */
  lemma {:induction false} GroupedSpec(rows: seq<Row>, t: string)
    requires forall j | 0 <= j < |rows| :: TableOf(rows[j]).Some?
    ensures GroupOf(Grouped(rows), t) == Where(rows, InTable(t))
    ensures t in Grouped(rows) <==> exists j | 0 <= j < |rows| :: TableOf(rows[j]) == Some(t)
  {
    if |rows| > 0 {
      var pre := rows[..|rows| - 1];
      assert forall j | 0 <= j < |pre| :: pre[j] == rows[j];
      GroupedSpec(pre, t);
      if exists j | 0 <= j < |pre| :: TableOf(pre[j]) == Some(t) {
        var j :| 0 <= j < |pre| && TableOf(pre[j]) == Some(t);
        assert TableOf(rows[j]) == Some(t);
      }
    }
  }

  lemma GroupedPrefix(rows: seq<Row>, i: nat)
    requires i < |rows| && forall j | 0 <= j <= i :: TableOf(rows[j]).Some?
    ensures Grouped(rows[..i + 1]) ==
      var g := Grouped(rows[..i]);
      g[TableOf(rows[i]).value := GroupOf(g, TableOf(rows[i]).value) + [rows[i]]]
  {
    assert rows[..i + 1][..i] == rows[..i];
  }

  /** The two-step append of the loop is one update of the group. */
  lemma AppendRow(g: map<string, seq<Row>>, t: string, row: Row)
    ensures var g1 := if t in g then g else g[t := []];
      g1[t := g1[t] + [row]] == g[t := GroupOf(g, t) + [row]]
  {
  }

  /** `_load_csv`: no file gives no tables; otherwise the rows up to the
      first one without a table name, grouped by upper-cased name. */
  method LoadCsv(fileExists: bool, rows: seq<Row>) returns (tables: map<string, seq<Row>>)
    ensures tables == if fileExists then Grouped(rows[..NamedPrefix(rows)]) else map[]
  {
    tables := map[];
    if !fileExists {
      return;
    }
    var i := 0;
    while i < |rows|
      invariant i <= NamedPrefix(rows)
      invariant tables == Grouped(rows[..i])
    {
      var name := StrCell(rows[i], "TABLE_NAME");
      if name.Err? {
        break;
      }
      var t := Upper(name.value);
      GroupedPrefix(rows, i);
      ghost var before := tables;
      if t !in tables {
        tables := tables[t := []];
      }
      tables := tables[t := tables[t] + [rows[i]]];
      AppendRow(before, t, rows[i]);
      i := i + 1;
    }
  }

  // ---------------------------------------------------------------- _map_data_type

  /** `v and v != "None"`: a cell that holds a value. */
  predicate Usable(v: Option<string>) {
    v.Some? && v.value != "" && v.value != "None"
  }

  const NumericTypes: seq<string> := ["NUMBER", "DECIMAL", "NUMERIC"]
  const CharacterTypes: seq<string> := ["VARCHAR2", "NVARCHAR2", "CHAR", "NCHAR", "VARCHAR"]

  /** Which rule an upper-cased Oracle type falls under; the rules are
      tried in this order. */
  datatype Family = TimestampFamily | DateFamily | NumericFamily | CharacterFamily | OtherFamily

  function FamilyOf(t: string): (f: Family)
    ensures f == TimestampFamily <==> Contains(t, "TIMESTAMP")
    ensures f == DateFamily <==> !Contains(t, "TIMESTAMP") && t == "DATE"
    ensures f == NumericFamily <==> !Contains(t, "TIMESTAMP") && t != "DATE" && t in NumericTypes
    ensures f == CharacterFamily <==>
      !Contains(t, "TIMESTAMP") && t != "DATE" && t !in NumericTypes && t in CharacterTypes
  {
    if Contains(t, "TIMESTAMP") then TimestampFamily
    else if t == "DATE" then DateFamily
    else if t in NumericTypes then NumericFamily
    else if t in CharacterTypes then CharacterFamily
    else OtherFamily
  }

  /** The names of the numeric and character types reach their rules:
      none of them contains `TIMESTAMP` or is `DATE`. */
  lemma NamedFamilies(t: string)
    ensures t in NumericTypes ==> FamilyOf(t) == NumericFamily
    ensures t in CharacterTypes ==> FamilyOf(t) == CharacterFamily
    ensures t == "DATE" ==> FamilyOf(t) == DateFamily
  {
    if t in NumericTypes || t in CharacterTypes || t == "DATE" {
      if |t| < 9 {
        ContainsShort(t, "TIMESTAMP");
      } else {
        assert t[0] != "TIMESTAMP"[0];
        ContainsShort(t[1..], "TIMESTAMP");
      }
    }
  }

  /** The Snowflake types the mapping produces. */
  datatype SfType =
    | TimestampNtzScaled(scale: string)
    | TimestampNtz
    | Number
    | NumberP(precision: string)
    | NumberPS(precision: string, scale: string)
    | Varchar
    | VarcharL(length: string)

  function Render(t: SfType): (r: string) {
    match t
    case TimestampNtzScaled(s) => "TIMESTAMP_NTZ(" + s + ")"
    case TimestampNtz => "TIMESTAMP_NTZ"
    case Number => "NUMBER"
    case NumberP(p) => "NUMBER(" + p + ")"
    case NumberPS(p, s) => "NUMBER(" + p + ", " + s + ")"
    case Varchar => "VARCHAR"
    case VarcharL(l) => "VARCHAR(" + l + ")"
  }

  /** The rule that applies to an Oracle type and its length, precision
      and scale cells; every type has one, `VARCHAR` by default. */
  function SnowflakeType(oracleType: string, length: Option<string>, precision: Option<string>, scale: Option<string>): (r: SfType) {
    match FamilyOf(Upper(oracleType))
    case TimestampFamily => TimestampNtzScaled(if scale.Some? && scale.value != "" then scale.value else "6")
    case DateFamily => TimestampNtz
    case NumericFamily =>
      if Usable(precision) then
        if Usable(scale) then NumberPS(precision.value, scale.value) else NumberP(precision.value)
      else Number
    case CharacterFamily => if Usable(length) then VarcharL(length.value) else Varchar
    case OtherFamily => Varchar
  }

  /** `_map_data_type`. */
  function MapDataType(oracleType: string, length: Option<string>, precision: Option<string>, scale: Option<string>): (r: string) {
    Render(SnowflakeType(oracleType, length, precision, scale))
  }

  /** The mapping does not depend on the case of the Oracle type. */
  lemma MapDataTypeIgnoresCase(oracleType: string, length: Option<string>, precision: Option<string>, scale: Option<string>)
    ensures MapDataType(Upper(oracleType), length, precision, scale) == MapDataType(oracleType, length, precision, scale)
  {
    UpperIdempotent(oracleType);
  }

  /** The mapping rules, type family by type family: numeric types keep
      the precision and scale they have, character types their length;
      anything unrecognised becomes `VARCHAR`. */
  lemma MapDataTypeRules(oracleType: string, length: Option<string>, precision: Option<string>, scale: Option<string>)
    ensures var t := Upper(oracleType);
      var r := SnowflakeType(oracleType, length, precision, scale);
      (Contains(t, "TIMESTAMP") ==> r == TimestampNtzScaled(if scale.Some? && scale.value != "" then scale.value else "6"))
      && (t == "DATE" ==> r == TimestampNtz)
      && (t in NumericTypes ==>
            r == if !Usable(precision) then Number else if Usable(scale) then NumberPS(precision.value, scale.value) else NumberP(precision.value))
      && (t in CharacterTypes ==> r == if Usable(length) then VarcharL(length.value) else Varchar)
      && (!Contains(t, "TIMESTAMP") && t != "DATE" && t !in NumericTypes && t !in CharacterTypes ==> r == Varchar)
  {
    NamedFamilies(Upper(oracleType));
  }

  // ---------------------------------------------------------------- generate_ddl

  const AuditColumn := "    ETL_TIMESTAMP TIMESTAMP DEFAULT CURRENT_TIMESTAMP()"

  /** `f"{schema_name}."` when a non-empty schema name is given. */
  function FullSchema(schemaName: Option<string>): (r: string) {
    if schemaName.Some? && schemaName.value != "" then schemaName.value + "." else ""
  }

  function Warning(t: string): (r: string) {
    "-- Warning: Table " + t + " not found in CSV data.\n"
  }

  /** `f"    {col_name} {sf_type}"`. */
  function ColumnDef(col: Row): (r: Result<string, string>)
    ensures r.Ok? <==> "COLUMN_NAME" in col && "DATA_TYPE" in col && col["DATA_TYPE"].Some?
  {
    match TextCell(col, "COLUMN_NAME")
    case Err(e) => Err(e)
    case Ok(name) =>
      match StrCell(col, "DATA_TYPE")
      case Err(e) => Err(e)
      case Ok(dataType) =>
        Ok("    " + name + " " + MapDataType(dataType, CellOr(col, "DATA_LENGTH"), CellOr(col, "DATA_PRECISION"), CellOr(col, "DATA_SCALE")))
  }

  /** `f"CREATE OR REPLACE TABLE {full_schema}{table_name} (\n"`. */
  function Header(fullSchema: string, t: string): (r: string) {
    "CREATE OR REPLACE TABLE " + fullSchema + t + " (\n"
  }

  const Footer := "\n);"

  function CreateTable(fullSchema: string, t: string, defs: seq<string>): (r: string) {
    Header(fullSchema, t) + Join(",\n", defs + [AuditColumn]) + Footer
  }

  /** The statement lists the columns in order and ends with the audit
      column. */
  lemma CreateTableSpec(fullSchema: string, t: string, defs: seq<string>)
    ensures CreateTable(fullSchema, t, defs) ==
      Header(fullSchema, t) + (if |defs| == 0 then "" else Join(",\n", defs) + ",\n") + AuditColumn + Footer
  {
    JoinLast(",\n", defs, AuditColumn);
    var k := if |defs| == 0 then "" else Join(",\n", defs) + ",\n";
    assert Join(",\n", defs + [AuditColumn]) == k + AuditColumn;
    ConcatAssoc(Header(fullSchema, t), k, AuditColumn);
  }

  /** The statement names the table under `<schema>.` exactly when a
      non-empty schema name is given. */
  lemma CreateTableSchema(schemaName: Option<string>, t: string, defs: seq<string>)
    ensures var s := CreateTable(FullSchema(schemaName), t, defs);
      (schemaName.Some? && schemaName.value != "" ==> StartsWith(s, "CREATE OR REPLACE TABLE " + schemaName.value + "." + t + " (\n"))
      && (schemaName.None? || schemaName.value == "" ==> StartsWith(s, "CREATE OR REPLACE TABLE " + t + " (\n"))
  {
    var h := Header(FullSchema(schemaName), t);
    var rest := Join(",\n", defs + [AuditColumn]) + Footer;
    assert CreateTable(FullSchema(schemaName), t, defs) == h + rest;
    assert (h + rest)[..|h|] == h;
  }

  /** The block for one requested name. */
  function Block(tables: map<string, seq<Row>>, schemaName: Option<string>, name: string): (r: Result<string, string>) {
    var t := Upper(name);
    if t !in tables then Ok(Warning(t))
    else
      match MapAll(tables[t], ColumnDef)
      case Err(e) => Err(e)
      case Ok(defs) => Ok(CreateTable(FullSchema(schemaName), t, defs))
  }

  function BlockOf(tables: map<string, seq<Row>>, schemaName: Option<string>): (r: string -> Result<string, string>) {
    name => Block(tables, schemaName, name)
  }

  /** `generate_ddl`: the blocks of the requested names joined by a blank
      line. */
  function Ddl(tables: map<string, seq<Row>>, tableNames: seq<string>, schemaName: Option<string>): (r: Result<string, string>) {
    match MapAll(tableNames, BlockOf(tables, schemaName))
    case Err(e) => Err(e)
    case Ok(blocks) => Ok(Join("\n\n", blocks))
  }

  /** A name that is not a table yields exactly its warning; a table
      yields a statement with one definition per stored row, in order,
      and fails exactly when one of them does. */
  lemma BlockSpec(tables: map<string, seq<Row>>, schemaName: Option<string>, name: string)
    ensures Upper(name) !in tables ==> Block(tables, schemaName, name) == Ok(Warning(Upper(name)))
    ensures Upper(name) in tables ==>
      var rows := tables[Upper(name)];
      (Block(tables, schemaName, name).Ok? <==> forall i | 0 <= i < |rows| :: ColumnDef(rows[i]).Ok?)
      && (Block(tables, schemaName, name).Ok? ==>
            var defs := MapAll(rows, ColumnDef).value;
            |defs| == |rows| && (forall i | 0 <= i < |rows| :: defs[i] == ColumnDef(rows[i]).value)
            && Block(tables, schemaName, name).value == CreateTable(FullSchema(schemaName), Upper(name), defs))
  {
    if Upper(name) in tables {
      MapAllSpec(tables[Upper(name)], ColumnDef);
    }
  }

  /** Requested names are matched without regard to case. */
  lemma BlockIgnoresCase(tables: map<string, seq<Row>>, schemaName: Option<string>, name: string)
    ensures Block(tables, schemaName, Upper(name)) == Block(tables, schemaName, name)
  {
    UpperIdempotent(name);
  }

  /** One block per requested name, in order; the output fails exactly
      when some block does. */
  lemma DdlSpec(tables: map<string, seq<Row>>, tableNames: seq<string>, schemaName: Option<string>)
    ensures Ddl(tables, tableNames, schemaName).Ok? <==>
      forall i | 0 <= i < |tableNames| :: Block(tables, schemaName, tableNames[i]).Ok?
    ensures Ddl(tables, tableNames, schemaName).Ok? ==>
      var blocks := MapAll(tableNames, BlockOf(tables, schemaName)).value;
      |blocks| == |tableNames| && (forall i | 0 <= i < |tableNames| :: blocks[i] == Block(tables, schemaName, tableNames[i]).value)
      && Ddl(tables, tableNames, schemaName).value == Join("\n\n", blocks)
  {
    MapAllSpec(tableNames, BlockOf(tables, schemaName));
  }

  /** The column loop of `generate_ddl`. */
  method ColumnDefinitions(columns: seq<Row>) returns (r: Result<seq<string>, string>)
    ensures r == MapAll(columns, ColumnDef)
  {
    var defs: seq<string> := [];
    for i := 0 to |columns|
      invariant MapAll(columns[..i], ColumnDef) == Ok(defs)
    {
      MapAllPrefix(columns, i, ColumnDef);
      var d := ColumnDef(columns[i]);
      if d.Err? {
        MapAllErr(columns, i + 1, ColumnDef);
        return Err(d.error);
      }
      defs := defs + [d.value];
    }
    assert columns[..|columns|] == columns;
    return Ok(defs);
  }

  /** The generator, holding the grouped extract. */
  class SnowflakeDdlGenerator {
    var tableData: map<string, seq<Row>>

    /** `__init__`: the extract read at construction. */
    constructor (fileExists: bool, rows: seq<Row>)
      ensures tableData == if fileExists then Grouped(rows[..NamedPrefix(rows)]) else map[]
    {
      var tables := LoadCsv(fileExists, rows);
      tableData := tables;
    }

    /** `generate_ddl`, block by block. */
    method GenerateDdl(tableNames: seq<string>, schemaName: Option<string>) returns (r: Result<string, string>)
      ensures r == Ddl(tableData, tableNames, schemaName)
    {
      var step := BlockOf(tableData, schemaName);
      var fullSchema := FullSchema(schemaName);
      var ddls: seq<string> := [];
      for i := 0 to |tableNames|
        invariant MapAll(tableNames[..i], step) == Ok(ddls)
      {
        MapAllPrefix(tableNames, i, step);
        var t := Upper(tableNames[i]);
        if t !in tableData {
          ddls := ddls + [Warning(t)];
          continue;
        }
        var defs := ColumnDefinitions(tableData[t]);
        if defs.Err? {
          MapAllErr(tableNames, i + 1, step);
          return Err(defs.error);
        }
        ddls := ddls + [CreateTable(fullSchema, t, defs.value)];
      }
      assert tableNames[..|tableNames|] == tableNames;
      return Ok(Join("\n\n", ddls));
    }
  }
}
