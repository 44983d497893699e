/** The column-count comparison: the rows of an Oracle DDL extract are
    counted per table, a reference file gives the expected column count
    of each table, and one report line per table says whether the two
    agree. */
module ColCount {
  import opened Wrappers
  import opened Text
  import opened Seqs
  import opened Sorting
  import OraToSnow

  type Row = OraToSnow.Row

  const TableNameHeader := "TABLE_NAME"
  const ColumnCountHeader := "COLUMN_COUNT"
  /** `int(None)`, for a reference row too short to have a count cell. */
  const TypeError := "TypeError"

  /** `row['TABLE_NAME'].upper().strip()`. */
  function TableName(row: Row): (r: Result<string, string>) {
    match OraToSnow.StrCell(row, TableNameHeader)
    case Err(e) => Err(e)
    case Ok(name) => Ok(Strip(Upper(name)))
  }

  /** `d.get(k)`, `None` standing for the report's `"N/A"`. */
  function MapGet<V>(m: map<string, V>, k: string): (r: Option<V>)
    ensures r.Some? <==> k in m
    ensures r.Some? ==> r.value == m[k]
  {
    if k in m then Some(m[k]) else None
  }

  // ---------------------------------------------------------------- extract counts

  /** `counts[t] += 1` on a `Counter`. */
  function Bump(counts: map<string, nat>, t: string): (r: map<string, nat>) {
    counts[t := (if t in counts then counts[t] else 0) + 1]
  }

  /** The `Counter` after counting the names in order. */
  function Tally(names: seq<string>): (r: map<string, nat>) {
    if |names| == 0 then map[]
    else Bump(Tally(names[..|names| - 1]), names[|names| - 1])
  }

  /** The counter holds the names that occur, each with its number of
      occurrences. */
  lemma {:induction false} TallySpec(names: seq<string>)
    ensures forall t :: t in Tally(names) <==> t in names
    ensures forall t | t in Tally(names) :: Tally(names)[t] == multiset(names)[t]
  {
    if |names| > 0 {
      var pre := names[..|names| - 1];
      TallySpec(pre);
      assert names == pre + [names[|names| - 1]];
    }
  }

  lemma TallyStep(names: seq<string>, t: string)
    ensures Tally(names + [t]) == Bump(Tally(names), t)
  {
    assert (names + [t])[..|names|] == names;
  }

  /** The table names of the extract's rows; a row without one raises. */
  function ExtractNames(rows: seq<Row>): (r: Result<seq<string>, string>) {
    MapAll(rows, TableName)
  }

  function ExtractCounts(rows: seq<Row>): (r: Result<map<string, nat>, string>) {
    match ExtractNames(rows)
    case Err(e) => Err(e)
    case Ok(names) => Ok(Tally(names))
  }

  /** The extract is counted exactly when every row has a table name, and
      otherwise raises the error of the first row without one; a table's
      count is the number of rows whose trimmed, upper-cased name it is. */
  lemma ExtractCountsSpec(rows: seq<Row>)
    ensures ExtractCounts(rows).Ok? <==> forall i | 0 <= i < |rows| :: TableName(rows[i]).Ok?
    ensures ExtractCounts(rows).Err? ==>
      exists i | 0 <= i < |rows| :: TableName(rows[i]) == Err(ExtractCounts(rows).error)
        && forall j | 0 <= j < i :: TableName(rows[j]).Ok?
    ensures ExtractCounts(rows).Ok? ==>
      var names := ExtractNames(rows).value;
      var counts := ExtractCounts(rows).value;
      |names| == |rows|
      && (forall i | 0 <= i < |rows| :: names[i] == TableName(rows[i]).value)
      && (forall t :: t in counts <==> t in names)
      && (forall t | t in counts :: counts[t] == multiset(names)[t])
  {
    MapAllSpec(rows, TableName);
    if ExtractNames(rows).Ok? {
      TallySpec(ExtractNames(rows).value);
    }
  }

  /** The extract loop: `extract_counts[table_name] += 1` per row. */
  method CountExtract(rows: seq<Row>) returns (r: Result<map<string, nat>, string>)
    ensures r == ExtractCounts(rows)
  {
    var counts: map<string, nat> := map[];
    ghost var done: seq<string> := [];
    var i := 0;
    while i < |rows|
      invariant 0 <= i <= |rows|
      invariant MapAll(rows[..i], TableName) == Ok(done)
      invariant counts == Tally(done)
    {
      MapAllPrefix(rows, i, TableName);
      var t := TableName(rows[i]);
      if t.Err? {
        MapAllErr(rows, i + 1, TableName);
        return Err(t.error);
      }
      counts := Bump(counts, t.value);
      TallyStep(done, t.value);
      done := done + [t.value];
      i := i + 1;
    }
    assert rows[..i] == rows;
    return Ok(counts);
  }

  // ---------------------------------------------------------------- reference counts

  /** One reference row: its table name (a row without one raises), then
      `int(row['COLUMN_COUNT'])`. A missing header (`KeyError`) or a cell
      that is not an integer (`ValueError`) skips the row; a cell the row
      is too short to have is `None`, and `int(None)` raises. */
  function ReferenceEntry(row: Row): (r: Result<Option<(string, int)>, string>) {
    match TableName(row)
    case Err(e) => Err(e)
    case Ok(t) =>
      if ColumnCountHeader !in row then Ok(None)
      else
        match row[ColumnCountHeader]
        case None => Err(TypeError)
        case Some(cell) =>
          match ParseInt(cell)
          case None => Ok(None)
          case Some(n) => Ok(Some((t, n)))
  }

  /** The skipped rows are exactly those with a table name and a missing
      or non-integer count; the rows that raise are those without a table
      name and those too short for a count. */
  lemma ReferenceEntrySkips(row: Row)
    ensures ReferenceEntry(row) == Ok(None) <==>
      TableName(row).Ok? && (ColumnCountHeader !in row
        || (row[ColumnCountHeader].Some? && ParseInt(row[ColumnCountHeader].value).None?))
    ensures ReferenceEntry(row).Err? <==>
      TableName(row).Err? || (ColumnCountHeader in row && row[ColumnCountHeader].None?)
    ensures ReferenceEntry(row).Ok? && ReferenceEntry(row).value.Some? ==>
      ReferenceEntry(row).value.value == (TableName(row).value, ParseInt(row[ColumnCountHeader].value).value)
  {
  }

  /** Whether a reference row gives table `t` a count. */
  predicate Counts(row: Row, t: string) {
    Gives(ReferenceEntry, row, t)
  }

  function ReferencePairs(rows: seq<Row>): (r: Result<seq<(string, int)>, string>) {
    CollectSome(rows, ReferenceEntry)
  }

  /** `reference_data`: the pairs stored in row order, a later row
      overwriting an earlier one. */
  function ReferenceData(rows: seq<Row>): (r: Result<map<string, int>, string>) {
    match ReferencePairs(rows)
    case Err(e) => Err(e)
    case Ok(ps) => Ok(Store(map[], ps))
  }

  /** The reference is read exactly when no row raises, and then it has
      exactly the tables some row gives a count. */
  lemma ReferenceKeys(rows: seq<Row>)
    ensures ReferenceData(rows).Ok? <==> forall i | 0 <= i < |rows| :: ReferenceEntry(rows[i]).Ok?
    ensures ReferenceData(rows).Ok? ==>
      forall t :: t in ReferenceData(rows).value <==> exists i | 0 <= i < |rows| :: Counts(rows[i], t)
  {
    CollectSomeSpec(rows, ReferenceEntry);
    if ReferenceData(rows).Ok? {
      CollectStoreKeys(rows, ReferenceEntry);
    }
  }

  /** A table holds the count of the last row that gives it one. */
  lemma ReferenceLast(rows: seq<Row>, i: nat, t: string, n: int)
    requires ReferenceData(rows).Ok? && i < |rows| && ReferenceEntry(rows[i]) == Ok(Some((t, n)))
    requires forall j | i < j < |rows| :: !Counts(rows[j], t)
    ensures t in ReferenceData(rows).value && ReferenceData(rows).value[t] == n
  {
    CollectStoreLast(rows, ReferenceEntry, i);
  }

  /** The body of the reference loop for one row: `Some` pair to store,
      `None` for `continue`. */
  method ReadRow(row: Row) returns (e: Result<Option<(string, int)>, string>)
    ensures e == ReferenceEntry(row)
  {
    var t := TableName(row);
    if t.Err? {
      return Err(t.error);
    }
    if ColumnCountHeader !in row {
      return Ok(None);
    }
    var cell := row[ColumnCountHeader];
    if cell.None? {
      return Err(TypeError);
    }
    var n := ParseInt(cell.value);
    if n.None? {
      return Ok(None);
    }
    return Ok(Some((t.value, n.value)));
  }

  /** The reference loop: `reference_data[table_name] = int(...)` per row,
      `continue` on a missing or malformed count. */
  method ReadReference(rows: seq<Row>) returns (r: Result<map<string, int>, string>)
    ensures r == ReferenceData(rows)
  {
    var data: map<string, int> := map[];
    ghost var pairs: seq<(string, int)> := [];
    var i := 0;
    while i < |rows|
      invariant 0 <= i <= |rows|
      invariant ReferencePairs(rows[..i]) == Ok(pairs)
      invariant data == Store(map[], pairs)
    {
      CollectSomePrefix(rows, i, ReferenceEntry);
      var e := ReadRow(rows[i]);
      if e.Err? {
        CollectSomeErr(rows, i + 1, ReferenceEntry);
        return Err(e.error);
      }
      if e.value.Some? {
        var (t, n) := e.value.value;
        data := data[t := n];
        StoreStep(map[], pairs, (t, n));
        pairs := pairs + [(t, n)];
      }
      i := i + 1;
    }
    assert rows[..i] == rows;
    return Ok(data);
  }

  // ---------------------------------------------------------------- reported tables

  function Firsts(ps: seq<(string, int)>): (ks: seq<string>)
    ensures |ks| == |ps| && forall i | 0 <= i < |ps| :: ks[i] == ps[i].0
  {
    seq(|ps|, i requires 0 <= i < |ps| => ps[i].0)
  }

  /** `sorted(set(list(extract_counts.keys()) + list(reference_data.keys())))`. */
  function Tables(names: seq<string>, pairs: seq<(string, int)>): (r: seq<string>) {
    SortedSet(names + Firsts(pairs))
  }

  /** The reported tables are ascending, so each is reported once, and
      they are exactly the tables of either side. */
  lemma TablesSpec(names: seq<string>, pairs: seq<(string, int)>)
    ensures Ascending(Tables(names, pairs))
    ensures forall t :: t in Tables(names, pairs) <==> t in Tally(names) || t in Store(map[], pairs)
  {
    SortedSetSpec(names + Firsts(pairs));
    TallySpec(names);
    StoreSpec(map[], pairs);
    forall t ensures t in Firsts(pairs) <==> t in Store(map[], pairs) {
      if t in Firsts(pairs) {
        var k :| 0 <= k < |pairs| && Firsts(pairs)[k] == t;
        assert pairs[k].0 == t;
      }
      if t in Store(map[], pairs) {
        var k :| 0 <= k < |pairs| && pairs[k].0 == t;
        assert Firsts(pairs)[k] == t;
      }
    }
  }

  /** `sorted(set(keys))`: the keys of both maps, listed in whatever order
      the set yields them, then sorted. */
  method SortedTables(counts: map<string, nat>, data: map<string, int>) returns (tables: seq<string>)
    ensures Ascending(tables)
    ensures forall t :: t in tables <==> t in counts || t in data
  {
    var rest := counts.Keys + data.Keys;
    var listed: seq<string> := [];
    while rest != {}
      invariant forall t :: t in listed || t in rest <==> t in counts || t in data
      decreases |rest|
    {
      var t :| t in rest;
      listed := listed + [t];
      rest := rest - {t};
    }
    tables := SortedSet(listed);
    SortedSetSpec(listed);
  }

  /** The tables the method lists are the ones the specification reports:
      only one ascending list holds a given set. */
  lemma TablesUnique(tables: seq<string>, names: seq<string>, pairs: seq<(string, int)>)
    requires Ascending(tables)
    requires forall t :: t in tables <==> t in Tally(names) || t in Store(map[], pairs)
    ensures tables == Tables(names, pairs)
  {
    TablesSpec(names, pairs);
    AscendingUnique(tables, Tables(names, pairs));
  }

  // ---------------------------------------------------------------- comparison

  datatype Status = Missing | Match | Mismatch

  /** `MISSING` when either count is `"N/A"`, `MATCH` when they are equal,
      `MISMATCH` otherwise. */
  function StatusOf(reference: Option<int>, file: Option<nat>): (s: Status)
    ensures s == Missing <==> reference.None? || file.None?
    ensures s == Match <==> reference.Some? && file.Some? && reference.value == file.value as int
    ensures s == Mismatch <==> reference.Some? && file.Some? && reference.value != file.value as int
  {
    if reference.None? || file.None? then Missing
    else if reference.value == file.value as int then Match
    else Mismatch
  }

  /** One line of the report before it is formatted. */
  datatype Comparison = Comparison(table: string, reference: Option<int>, file: Option<nat>, status: Status)

  function Compare(t: string, counts: map<string, nat>, data: map<string, int>): (r: Comparison) {
    Comparison(t, MapGet(data, t), MapGet(counts, t), StatusOf(MapGet(data, t), MapGet(counts, t)))
  }

  function Comparisons(tables: seq<string>, counts: map<string, nat>, data: map<string, int>): (cs: seq<Comparison>)
    ensures |cs| == |tables| && forall i | 0 <= i < |tables| :: cs[i] == Compare(tables[i], counts, data)
  {
    seq(|tables|, i requires 0 <= i < |tables| => Compare(tables[i], counts, data))
  }

  /** The comparison loop over the sorted tables. */
  method CompareTables(tables: seq<string>, counts: map<string, nat>, data: map<string, int>)
    returns (cs: seq<Comparison>)
    ensures cs == Comparisons(tables, counts, data)
  {
    cs := [];
    for i := 0 to |tables|
      invariant cs == Comparisons(tables[..i], counts, data)
    {
      var t := tables[i];
      var refCount := MapGet(data, t);
      var fileCount := MapGet(counts, t);
      var status := StatusOf(refCount, fileCount);
      cs := cs + [Comparison(t, refCount, fileCount, status)];
    }
    assert tables[..|tables|] == tables;
  }

  // ---------------------------------------------------------------- compare_counts

  /** What `compare_counts` ends with: the name of an input file that does
      not exist, or the compared tables. */
  datatype Outcome = NotFound(path: string) | Compared(rows: seq<Comparison>)

  /** `compare_counts(extract_csv, reference_csv)`, the file system given as
      whether each file exists and, if it does, its rows. */
  function Report(extractPath: string, extractExists: bool, extractRows: seq<Row>,
                  referencePath: string, referenceExists: bool, referenceRows: seq<Row>): (r: Result<Outcome, string>)
  {
    if !extractExists then Ok(NotFound(extractPath))
    else
      match ExtractNames(extractRows)
      case Err(e) => Err(e)
      case Ok(names) =>
        if !referenceExists then Ok(NotFound(referencePath))
        else
          match ReferencePairs(referenceRows)
          case Err(e) => Err(e)
          case Ok(pairs) => Ok(Compared(Comparisons(Tables(names, pairs), Tally(names), Store(map[], pairs))))
  }

  /** A missing extract returns before anything is read; a missing
      reference returns after the extract has been counted, so an extract
      row without a table name still raises. */
  lemma EarlyReturns(extractPath: string, extractExists: bool, extractRows: seq<Row>,
                     referencePath: string, referenceExists: bool, referenceRows: seq<Row>)
    ensures !extractExists ==>
      Report(extractPath, extractExists, extractRows, referencePath, referenceExists, referenceRows) == Ok(NotFound(extractPath))
    ensures extractExists && ExtractCounts(extractRows).Err? ==>
      Report(extractPath, extractExists, extractRows, referencePath, referenceExists, referenceRows) == Err(ExtractCounts(extractRows).error)
    ensures extractExists && ExtractCounts(extractRows).Ok? && !referenceExists ==>
      Report(extractPath, extractExists, extractRows, referencePath, referenceExists, referenceRows) == Ok(NotFound(referencePath))
    ensures (Report(extractPath, extractExists, extractRows, referencePath, referenceExists, referenceRows).Ok?
      && Report(extractPath, extractExists, extractRows, referencePath, referenceExists, referenceRows).value.Compared?) ==>
      extractExists && referenceExists
  {
  }

  /** With both files read, every table of either side is reported once,
      in ascending order, with its two counts; it is `MISSING` exactly
      when one side lacks it and `MATCH` exactly when both counts agree. */
  lemma ReportedTables(extractRows: seq<Row>, referenceRows: seq<Row>)
    requires ExtractCounts(extractRows).Ok? && ReferenceData(referenceRows).Ok?
    ensures var counts := ExtractCounts(extractRows).value;
      var data := ReferenceData(referenceRows).value;
      var cs := Report("", true, extractRows, "", true, referenceRows).value.rows;
      (forall i, j | 0 <= i < j < |cs| :: Below(cs[i].table, cs[j].table))
      && (forall t :: (exists i | 0 <= i < |cs| :: cs[i].table == t) <==> t in counts || t in data)
      && (forall i | 0 <= i < |cs| ::
            cs[i].reference == MapGet(data, cs[i].table) && cs[i].file == MapGet(counts, cs[i].table)
            && (cs[i].status == Missing <==> cs[i].table !in counts || cs[i].table !in data)
            && (cs[i].status == Match <==>
                  cs[i].table in counts && cs[i].table in data && counts[cs[i].table] as int == data[cs[i].table]))
  {
    var names := ExtractNames(extractRows).value;
    var pairs := ReferencePairs(referenceRows).value;
    var tables := Tables(names, pairs);
    TablesSpec(names, pairs);
    var cs := Comparisons(tables, Tally(names), Store(map[], pairs));
    forall t ensures (exists i | 0 <= i < |cs| :: cs[i].table == t) <==> t in tables {
      if t in tables {
        var i :| 0 <= i < |tables| && tables[i] == t;
        assert cs[i].table == t;
      }
    }
  }

  /** `compare_counts`: the existence checks, the two reading loops, the
      sorted union of the tables and the comparison loop. */
  method CompareCounts(extractPath: string, extractExists: bool, extractRows: seq<Row>,
                       referencePath: string, referenceExists: bool, referenceRows: seq<Row>)
    returns (r: Result<Outcome, string>)
    ensures r == Report(extractPath, extractExists, extractRows, referencePath, referenceExists, referenceRows)
  {
    if !extractExists {
      return Ok(NotFound(extractPath));
    }
    var counts := CountExtract(extractRows);
    if counts.Err? {
      return Err(counts.error);
    }
    if !referenceExists {
      return Ok(NotFound(referencePath));
    }
    var data := ReadReference(referenceRows);
    if data.Err? {
      return Err(data.error);
    }
    var tables := SortedTables(counts.value, data.value);
    TablesUnique(tables, ExtractNames(extractRows).value, ReferencePairs(referenceRows).value);
    var cs := CompareTables(tables, counts.value, data.value);
    return Ok(Compared(cs));
  }

  // ---------------------------------------------------------------- printed report

  /** `c * n`. */
  function Repeat(c: char, n: nat): (r: string)
    ensures |r| == n && forall k | 0 <= k < n :: r[k] == c
  {
    if n == 0 then [] else Repeat(c, n - 1) + [c]
  }

  /** `f"{s:<w}"`: left-aligned in a field of `w` characters, never cut. */
  function Pad(s: string, w: nat): (r: string)
    ensures |r| == if |s| < w then w else |s|
    ensures r[..|s|] == s
    ensures forall k | |s| <= k < |r| :: r[k] == ' '
  {
    if |s| < w then s + Repeat(' ', w - |s|) else s
  }

  /** `str(count)`, with `"N/A"` for a table one side lacks. */
  function Shown(v: Option<int>): (r: string) {
    match v
    case None => "N/A"
    case Some(n) => IntToString(n)
  }

  function ShownCount(v: Option<nat>): (r: string) {
    match v
    case None => "N/A"
    case Some(n) => NatToString(n)
  }

  function StatusText(s: Status): (r: string) {
    match s
    case Missing => "MISSING"
    case Match => "MATCH \U{2705}"
    case Mismatch => "MISMATCH \U{274C}"
  }

  const Separator := " | "
  const Header := Pad(TableNameHeader, 35) + Separator + Pad("REF_COUNT", 10) + Separator + Pad("FILE_COUNT", 10) + Separator + "STATUS"
  const Rule := Repeat('-', 75)

  function Line(c: Comparison): (r: string) {
    Pad(c.table, 35) + Separator + Pad(Shown(c.reference), 10) + Separator + Pad(ShownCount(c.file), 10) + Separator + StatusText(c.status)
  }

  /** The lines `compare_counts` prints. */
  function Printed(o: Outcome): (r: seq<string>) {
    if o.NotFound? then ["Error: " + o.path + " not found."] else [Header, Rule] + Lines(o.rows)
  }

  function Lines(rows: seq<Comparison>): (lines: seq<string>)
    ensures |lines| == |rows| && forall i | 0 <= i < |rows| :: lines[i] == Line(rows[i])
  {
    seq(|rows|, i requires 0 <= i < |rows| => Line(rows[i]))
  }

  /** A missing file prints one error line; a comparison prints the
      header, the rule and one line per compared table, in order. */
  lemma PrintedLines(o: Outcome)
    ensures o.NotFound? ==> Printed(o) == ["Error: " + o.path + " not found."]
    ensures o.Compared? ==>
      |Printed(o)| == 2 + |o.rows| && Printed(o)[0] == Header && Printed(o)[1] == Rule
      && forall i | 0 <= i < |o.rows| :: Printed(o)[2 + i] == Line(o.rows[i])
  {
  }

  /** Every report line begins with the table name, left-aligned in 35
      characters, and ends with the status. */
  lemma LineLayout(c: Comparison)
    ensures var w := if |c.table| < 35 then 35 else |c.table|;
      |Line(c)| > w + 3 && Line(c)[..|c.table|] == c.table
      && (forall k | |c.table| <= k < w :: Line(c)[k] == ' ')
      && Line(c)[w..w + 3] == Separator
      && Line(c)[|Line(c)| - |StatusText(c.status)|..] == StatusText(c.status)
  {
    var p := Pad(c.table, 35);
    var tail := Pad(Shown(c.reference), 10) + Separator + Pad(ShownCount(c.file), 10) + Separator;
    assert Line(c) == p + Separator + tail + StatusText(c.status);
    assert (p + Separator + tail + StatusText(c.status))[..|p|] == p;
  }
}
