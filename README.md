# Informatica mapping lineage, modelled in Dafny

This project models the lineage engine of a toolkit for Informatica
PowerCenter exports, along with a few small utilities from the same
repository. The engine takes the records of a mapping, already parsed from XML into
nested dicts and lists:

- instances;
- connectors between `instance.field` pairs;
- transformations with their fields and attributes.

It derives two things from them.

- **Execution ordering** (`NewStyle`, `Ordering`, `Levels`,
  `ParallelGroups`, `Logic`, `LogicConn`, `ConnExport`).
  - An instance graph is built whose node names are a type acronym followed by the instance name.
  - It is split into weakly connected components.
  - Longest-path levels are computed per component.
  - The source means a cyclic component to go through a single-pass cycle breaker, but as written it reaches a breadth-first fallback instead (see "## Findings").
  - The ordering the rest of the model uses is the corrected one. `Ordering.ComplexOrderAsWritten` models the code as written.
  - Each level is split greedily into parallel groups of mutually unreachable nodes.
  - Every connector is then enriched with an order, an execution level, a group and a logic text.
  - The logic text comes from a dispatcher on the transformation type.
  - The older exporter in `logic_conn_csv_export.py` levels breadth-first instead.
  - The flat CSV exporter in `conn_csv_export.py` holds the dict-or-list metadata normalisers.
- **Field-level backward lineage** (`FieldModel`, `Walks`,
  `FieldLineage`, `ConnectorLineage`).
  - A depth-bounded breadth-first walk is made over (instance, field, depth) states.
  - It has three expansion rules and a source test.
  - A simpler depth-first variant traces over connectors only.

The smaller independent cores are:

- a recursive JSON schema validator with dynamic `isrequired` rules (`SchemaValidate`);
- a structural shape validator (`ShapeValidator`);
- an Oracle to Snowflake type mapper and DDL builder (`OraToSnow`);
- an SQL `INSERT` generator for policy, vehicle and driver records (`SqlGen`);
- a per-table column-count comparison (`ColCount`).

Shared modules:

- `Wrappers`: `Option` and `Result`.
- `Text`: the Python string operations used. Case mapping is ASCII only.
- `Json`: a parsed document as a `Value`. It keeps Python truthiness, the `dict.get` default and key order.
- `Seqs` and `Sorting`: generic loop specifications and sorted sets.
- `Digraph`: the networkx calls used, restated over a node sequence (in insertion order) and a sequence of distinct edges:
  - weak components;
  - topological sort;
  - strong components;
  - `has_path`;
  - predecessors, successors and degrees;
  - induced subgraphs.

Stateful objects are classes, and their methods update fields in place:

- `InfaLineageGenerator` (`NewStyle`);
- `InformaticaMappingExtractor` (`LogicConn`);
- the CSV exporter (`ConnExport`);
- `LineageFramework` (`FieldLineage`);
- `PowerCenterLineage` (`ConnectorLineage`);
- the schema document (`SchemaValidate`).

Each of these methods is proved against a specification function of the old
state. Where the source raises, the model returns a `Result` error, and
callers that catch the error model the catching branch. Loops are `while`
or `for` loops with invariants.

## Model

| member | source | states |
|---|---|---|
| ShapeValidator.EntryResults | validator.py:4-33 | one check per schema entry, in the schema's order |
| ShapeValidator.ItemResults | validator.py:26-28 | one check per input list item, each against the schema list's first item |
| ShapeValidator.ConformsSpec | validator.py:4-35 | a dict schema is met exactly when every entry's check passes; otherwise the outcome is that of the first entry that does not pass, every entry before it having passed (the loop stops at the first failure) |
| ShapeValidator.NotDictRaises | validator.py:4 | a schema that is not a dict raises at `.items()` |
| ShapeValidator.ConformingHasKeys | validator.py:4-15 | a conforming input has every schema key, each with a value of exactly the schema value's type |
| ShapeValidator.MissingOrMismatchFails | validator.py:5-15 | a missing key, or a value of another type, makes the result False once the entries before it have not raised |
| ShapeValidator.NestedFailure | validator.py:17-19 | a nested dict that does not conform decides the outcome of the whole input |
| ShapeValidator.ListEntry | validator.py:20-32 | an empty input list or an empty schema list passes; otherwise the entry passes exactly when every input item conforms to the schema list's first item |
| ShapeValidator.ExtraKeysIgnored | validator.py:4-9 | input keys the schema does not name are ignored: inputs agreeing on the schema's keys get the same outcome |
| SchemaValidate.TransactionType | NextLev/schema_validate.py:15 | the transaction type is the upper-cased `transactionType` string, `""` when the key is absent; a payload that is not a dict or a value that is not a string raises |
| SchemaValidate.SetRequiredSpec | NextLev/schema_validate.py:18-32 | marking a present entry sets its `isrequired` to `required` exactly when asked and `optional` otherwise, changing nothing else in the entry or the schema; an absent entry leaves the schema as it was; an entry that is not a dict raises |
| SchemaValidate.AppliedSpec | NextLev/schema_validate.py:15-34 | after a successful run `cancellationReason` (when present) is required exactly when the type is `CA`, `reinstatementReason` (when present) exactly when it is `RI`, and every other top-level entry is untouched |
| SchemaValidate.SetTwice | NextLev/schema_validate.py:18-32 | the two markings are independent: each entry ends with its own requiredness and all other entries are unchanged |
| SchemaValidate.AppliedErr | NextLev/schema_validate.py:15-24 | a raise before the first assignment leaves the schema unchanged |
| SchemaValidate.SchemaDoc.ApplyDynamicModifications | NextLev/schema_validate.py:9-34 | the in-place update leaves the schema and outcome given by `Applied`, keeping the changes made before a raise |
| SchemaValidate.KindOf | NextLev/schema_validate.py:46-57 | a lowered type is `string`, `number`, `array` or another type, each test an if-and-only-if |
| SchemaValidate.PrimitiveErrors | NextLev/schema_validate.py:45-58 | a primitive descriptor gives at most one message: none exactly when the value has the named type, one `Unsupported type` for any other type name; a `type` that is not a string raises |
| SchemaValidate.KeysToValidate | NextLev/schema_validate.py:61 | the keys checked are exactly the schema keys other than `isrequired`, `type` and `items` |
| SchemaValidate.NonDictErrors | NextLev/schema_validate.py:61-63 | a schema that is not a dict produces no messages when it does not raise |
| SchemaValidate.KeyResults | NextLev/schema_validate.py:62-104 | one result per checked key, in order |
| SchemaValidate.FieldSchema | NextLev/schema_validate.py:63 | `schema[key]` is the value the lookup finds |
| SchemaValidate.InItem | NextLev/schema_validate.py:93-95 | every message of item `i` is wrapped with the key and the index, one for one and in order |
| SchemaValidate.ItemResults | NextLev/schema_validate.py:90-95 | each item is validated recursively against `items`; its raise is passed on and its messages are wrapped with its position |
| SchemaValidate.Texts | NextLev/schema_validate.py:36-105 | the returned strings are the rendered messages, one for one |
| SchemaValidate.ValidateSchema | NextLev/schema_validate.py:36-105 | the method returns exactly the messages, or the raise, of the recursive definition `Errors` |
| SchemaValidate.ValidateKeys | NextLev/schema_validate.py:62-105 | the key loop accumulates every key's messages in order and stops at a raise, as `KeysErrors` |
| SchemaValidate.ValidateKey | NextLev/schema_validate.py:63-104 | one key's messages, as `KeyErrors` |
| SchemaValidate.ValidateField | NextLev/schema_validate.py:64-104 | the missing, null, typed and nested-object cases of one field, as `FieldErrors` |
| SchemaValidate.ValidateTyped | NextLev/schema_validate.py:76-97 | the string, number, array and unsupported-type cases of a field with a `type`, as `TypedErrors` |
| SchemaValidate.ValidateItems | NextLev/schema_validate.py:88-95 | the item loop appends each item's wrapped messages in order, as `ItemsErrors` |
| SchemaValidate.AppendItem | NextLev/schema_validate.py:93-95 | the inner loop appends exactly the item's messages with its prefix |
| SchemaValidate.MissingAndNull | NextLev/schema_validate.py:64-74 | a missing key gives exactly one message when required and none when optional; a null value the same way |
| SchemaValidate.NestedObject | NextLev/schema_validate.py:98-104 | a field without `type` must hold a dict, otherwise exactly one `should be an object` message; a dict is checked recursively against the field's schema and its messages are the field's |
| SchemaValidate.KeysErrorsSpec | NextLev/schema_validate.py:62-105 | messages accumulate: every key's messages are in the result and every message in it comes from some key; the check raises exactly when some key raises, and then with the first such raise |
| SchemaValidate.ItemsErrorsSpec | NextLev/schema_validate.py:88-95 | every array message is an item message wrapped with the key and a valid index, and every message of every item is kept; a raise on an item is the check's raise; an empty array gives no messages |
| SchemaValidate.InArrayText | NextLev/schema_validate.py:95 | the text of an item message starts with `In array '<key>' item <i>: ` |
| OraToSnow.StrCell | coxcomb/ora_to_snow.py:21 | `row[k]` used as a string succeeds exactly when the header exists and the row has the cell, and gives that cell |
| OraToSnow.TextCell | coxcomb/ora_to_snow.py:74-75 | `row[k]` formatted into text succeeds exactly when the header exists |
| OraToSnow.NamedPrefix | coxcomb/ora_to_snow.py:20-26 | the rows read are the longest prefix whose rows all have a table name; the next row, if any, has none (its raise ends reading) |
| OraToSnow.GroupedSpec | coxcomb/ora_to_snow.py:20-24 | each table holds exactly the rows whose upper-cased `TABLE_NAME` is its name, in their order, and a table is present exactly when some row names it |
| OraToSnow.GroupedPrefix | coxcomb/ora_to_snow.py:21-24 | reading one more row appends it to its table's group and changes nothing else |
| OraToSnow.AppendRow | coxcomb/ora_to_snow.py:22-24 | creating a missing group and appending to it is one append to the group |
| OraToSnow.LoadCsv | coxcomb/ora_to_snow.py:10-28 | no file gives no tables; otherwise the tables are the named prefix of the rows grouped by upper-cased name |
| OraToSnow.FamilyOf | coxcomb/ora_to_snow.py:35-56 | the rule that applies is the first of timestamp, date, numeric and character that matches, each as an if-and-only-if |
| OraToSnow.NamedFamilies | coxcomb/ora_to_snow.py:35-53 | the listed numeric and character type names and `DATE` reach their own rule, since none of them contains `TIMESTAMP` |
| OraToSnow.MapDataTypeIgnoresCase | coxcomb/ora_to_snow.py:32 | the mapping ignores the case of the Oracle type |
| OraToSnow.MapDataTypeRules | coxcomb/ora_to_snow.py:30-56 | a type containing `TIMESTAMP` maps to `TIMESTAMP_NTZ(scale)` with scale 6 when empty; `DATE` maps to `TIMESTAMP_NTZ`; numeric types to `NUMBER(p, s)`, `NUMBER(p)` or `NUMBER` by which of precision and scale are usable; character types to `VARCHAR(len)` or `VARCHAR`; anything else to `VARCHAR` |
| OraToSnow.ColumnDef | coxcomb/ora_to_snow.py:74-81 | a column definition is written exactly when the row has a column name and a data type cell |
| OraToSnow.CreateTableSpec | coxcomb/ora_to_snow.py:84-88 | the statement lists the column definitions in order, then the `ETL_TIMESTAMP` audit column as the last column, then `);` |
| OraToSnow.CreateTableSchema | coxcomb/ora_to_snow.py:62-86 | the table is named under `<schema>.` exactly when a non-empty schema name is given |
| OraToSnow.BlockSpec | coxcomb/ora_to_snow.py:65-90 | an unknown table gives exactly its warning comment and no statement; a known table gives one definition per stored row, in order, and fails exactly when one of them does |
| OraToSnow.BlockIgnoresCase | coxcomb/ora_to_snow.py:65 | requested names are matched after upper-casing |
| OraToSnow.DdlSpec | coxcomb/ora_to_snow.py:58-92 | the output is the requested names' blocks, one each and in order, joined by a blank line; it fails exactly when some block does |
| OraToSnow.ColumnDefinitions | coxcomb/ora_to_snow.py:71-81 | the column loop produces exactly the definitions of the stored rows, or the first failure |
| OraToSnow.SnowflakeDdlGenerator.constructor | coxcomb/ora_to_snow.py:6-8 | the generator holds the extract grouped by table |
| OraToSnow.SnowflakeDdlGenerator.GenerateDdl | coxcomb/ora_to_snow.py:58-92 | the block loop returns exactly `Ddl` of the held tables |
| SqlGen.Columns | sql_gens/sql_gen.py:18 | the columns are the fields' column names, in the mapping's order |
| SqlGen.SqlValues | sql_gens/sql_gen.py:19 | one rendered value per row entry, in the row's order |
| SqlGen.Rendered | sql_gens/sql_gen.py:20-22 | one statement per insert, in order |
| SqlGen.SqlValueSpec | sql_gens/sql_gen.py:19 | a value is written `NULL` exactly when it is falsy; a truthy value is written between single quotes, a non-empty string as its own text |
| SqlGen.RenderSpec | sql_gens/sql_gen.py:18-21 | a statement names its table and lists as many columns as values: column `i` is the row's key `i` and value `i` its value rendered |
| SqlGen.Unprefixed | sql_gens/sql_gen.py:30-49 | every field keeps its column and has its `json_path` with the list prefix replaced by nothing |
| SqlGen.StripPrefix | sql_gens/sql_gen.py:30-49 | a path written under the list's prefix is looked up without it |
| SqlGen.RowOfSpec | sql_gens/sql_gen.py:17-50 | a row is built exactly when the source is a dict (or there are no fields); it has one column per field, in order, holding the value at the field's path or `None` |
| SqlGen.RegistrantMapKeys | sql_gens/sql_gen.py:27 | building the registrant map needs every registrant to have a hashable `registrantId`, and its keys are exactly the registrants' ids |
| SqlGen.RegistrantMapLast | sql_gens/sql_gen.py:27 | of registrants sharing an id, the later one wins |
| SqlGen.NameOrNull | sql_gens/sql_gen.py:38-53 | a truthy name is kept and a falsy one becomes `None` |
| SqlGen.VehicleInsertsSpec | sql_gens/sql_gen.py:29-44 | the vehicle statements exist exactly when the vehicle list can be iterated and every vehicle yields one; then they are the vehicles' statements in order, all for `DMV_VEHICLE` |
| SqlGen.DriverInsertsSpec | sql_gens/sql_gen.py:47-58 | the driver statements exist exactly when the registrant list can be iterated and every registrant yields one; then they are the registrants' statements in order, all for `DMV_DRIVER` |
| SqlGen.InsertsSpec | sql_gens/sql_gen.py:13-60 | on a dict payload the statements are the policy's first, then the vehicles' in order, then the drivers' in order, and they are produced exactly when the registrant map and every vehicle and driver statement can be |
| SqlGen.RowOfOk | sql_gens/sql_gen.py:17 | a dict payload always yields its policy row |
| SqlGen.StatementCount | sql_gens/sql_gen.py:13-60 | with lists for `vehicleList` and `registrantList` (or none), there are exactly 1 + vehicles + registrants statements |
| SqlGen.VehicleShape | sql_gens/sql_gen.py:29-38 | a vehicle that yields a statement is a dict, and its row is the fields' row with `FULL_NAME` set exactly when its truthy id names a registrant |
| SqlGen.VehicleKeys | sql_gens/sql_gen.py:30-40 | a vehicle statement's columns are the mapping's vehicle columns other than `FULL_NAME`, in order, with `FULL_NAME` appended exactly when the vehicle's truthy `registrantId` names a registrant |
| SqlGen.VehicleValues | sql_gens/sql_gen.py:30-41 | each kept vehicle column holds the value at its path without `vehicleList[*].`; an appended `FULL_NAME` holds the registrant's `businessName`, `None` when that is empty |
| SqlGen.DriverShape | sql_gens/sql_gen.py:48-53 | a driver that yields a statement is a dict, and its row is the fields' row with `FULL_NAME` set |
| SqlGen.DriverValues | sql_gens/sql_gen.py:49-55 | a driver row always carries `FULL_NAME` from the driver's own `businessName` (`None` when empty), and each other mapping column the value at its path without `registrantList[*].` |
| SqlGen.DriverKeys | sql_gens/sql_gen.py:49-54 | the driver columns are the mapping's in order, `FULL_NAME` keeping its place when the mapping names it and appended otherwise |
| SqlGen.BuildVehicle | sql_gens/sql_gen.py:30-38 | the dict comprehension and the `FULL_NAME` update build exactly `VehicleInsert` |
| SqlGen.BuildDriver | sql_gens/sql_gen.py:49-53 | the dict comprehension and the `FULL_NAME` update build exactly `DriverInsert` |
| SqlGen.AppendVehicles | sql_gens/sql_gen.py:29-44 | the vehicle loop appends the rendered vehicle statements, in order, after those already written, or stops at the first raise |
| SqlGen.AppendDrivers | sql_gens/sql_gen.py:48-58 | the driver loop appends the rendered driver statements, in order, after those already written, or stops at the first raise |
| SqlGen.AppendVehicleList | sql_gens/sql_gen.py:29 | a vehicle list that cannot be iterated raises; otherwise as the vehicle loop |
| SqlGen.AppendDriverList | sql_gens/sql_gen.py:48 | a registrant list that cannot be iterated raises; otherwise as the driver loop |
| SqlGen.AppendLists | sql_gens/sql_gen.py:26-58 | the registrant map, then both loops, append exactly the rendered vehicle and driver statements |
| SqlGen.GenerateInsertStatements | sql_gens/sql_gen.py:13-60 | the method returns exactly the rendered statements of `Inserts`, or its raise |
| ColCount.MapGet | coxcomb/col_count.py:42-43 | `d.get(t, "N/A")` finds a value exactly when the table is a key, and then that value |
| ColCount.TallySpec | coxcomb/col_count.py:14-16 | the counter holds exactly the names that occur, each with its number of occurrences |
| ColCount.TallyStep | coxcomb/col_count.py:16 | counting one more name is one increment of its entry |
| ColCount.ExtractCountsSpec | coxcomb/col_count.py:12-16 | the extract is counted exactly when every row has a table name, otherwise the first row without one raises; a table's count is the number of rows whose trimmed, upper-cased name it is |
| ColCount.CountExtract | coxcomb/col_count.py:12-16 | the counting loop gives exactly `ExtractCounts` |
| ColCount.ReferenceEntrySkips | coxcomb/col_count.py:27-32 | a row is skipped exactly when it has a table name and a missing or non-integer `COLUMN_COUNT`; a row raises exactly when it has no table name or is too short for a count cell; otherwise it gives its name and count |
| ColCount.ReferenceKeys | coxcomb/col_count.py:24-32 | the reference is read exactly when no row raises, and then it has exactly the tables some row gives a count |
| ColCount.ReferenceLast | coxcomb/col_count.py:30 | a table holds the count of the last row that gives it one |
| ColCount.ReadRow | coxcomb/col_count.py:28-32 | one iteration of the reference loop gives exactly `ReferenceEntry` |
| ColCount.ReadReference | coxcomb/col_count.py:24-32 | the reference loop gives exactly `ReferenceData` |
| ColCount.Firsts | coxcomb/col_count.py:39 | the reference's keys are the stored pairs' table names |
| ColCount.TablesSpec | coxcomb/col_count.py:39 | the reported tables are strictly ascending, so each is reported once, and they are exactly the tables of either side |
| ColCount.SortedTables | coxcomb/col_count.py:39 | the set of both key sets, sorted, is ascending and holds exactly the keys of either map |
| ColCount.TablesUnique | coxcomb/col_count.py:39 | the sorted list the method builds is the one the specification reports, whatever order the set yields |
| ColCount.StatusOf | coxcomb/col_count.py:45-50 | `MISSING` exactly when one count is `N/A`, `MATCH` exactly when both exist and are equal, `MISMATCH` exactly when both exist and differ |
| ColCount.Comparisons | coxcomb/col_count.py:41-52 | one comparison per reported table, in order |
| ColCount.CompareTables | coxcomb/col_count.py:41-52 | the comparison loop gives exactly `Comparisons` |
| ColCount.EarlyReturns | coxcomb/col_count.py:8-22 | a missing extract returns before anything is read; a missing reference returns after the extract is counted; a comparison happens only when both files exist |
| ColCount.ReportedTables | coxcomb/col_count.py:39-50 | with both files read, every table of either side is reported once, in ascending order, with both counts; `MISSING` exactly when one side lacks it, `MATCH` exactly when both counts agree |
| ColCount.CompareCounts | coxcomb/col_count.py:5-52 | the method returns exactly `Report`: the existence checks, both reading loops, the sorted union and the comparison loop |
| ColCount.Repeat | coxcomb/col_count.py:36 | `"-" * 75` is 75 dashes |
| ColCount.Pad | coxcomb/col_count.py:35-52 | `f"{s:<w}"` keeps `s` and fills with spaces up to `w` characters, never cutting |
| ColCount.Lines | coxcomb/col_count.py:52 | one printed line per comparison, in order |
| ColCount.PrintedLines | coxcomb/col_count.py:9-52 | a missing file prints one error line; a comparison prints the header, the rule, then one line per table in order |
| ColCount.LineLayout | coxcomb/col_count.py:52 | every report line begins with the table name left-aligned in 35 characters, then ` \| `, and ends with the status |
| Digraph.Empty | XMLify/excel_export/new_style.py:150 | a new graph is well formed and has no nodes |
| Digraph.AddNode | XMLify/excel_export/new_style.py:152 | adding a node keeps the graph well formed, leaves the edges alone and appends the node only when it is new |
| Digraph.AddEdge | XMLify/excel_export/new_style.py:157 | adding an edge adds both ends as nodes, keeps insertion order, and adds the edge only when it is new |
| Digraph.RemoveEdge | XMLify/excel_export/new_style.py:326 | removing an edge keeps every node and exactly the other edges |
| Digraph.Subgraph | XMLify/excel_export/new_style.py:182 | the induced subgraph has exactly the kept nodes and the edges between them |
| Digraph.ReachFrom | XMLify/excel_export/new_style.py:366-367 | the reachable set contains its seeds, stays within the graph and is closed under successors |
| Digraph.HasPathIff | XMLify/excel_export/new_style.py:366-367 | `has_path` holds exactly when there is a path |
| Digraph.PathReverseIff | XMLify/excel_export/new_style.py:301 | a path in the reversed graph is exactly a path back in the original |
| Digraph.WeakComponentsPartition | XMLify/excel_export/new_style.py:179 | the weak components are disjoint and cover every node, and each is everything an undirected walk reaches from one of its nodes |
| Digraph.TopoSortCorrect | XMLify/excel_export/new_style.py:290 | a topological sort, when one is given, lists every node once, each edge pointing forward, and none is given exactly when no such order exists |
| Digraph.SccOfIff | XMLify/excel_export/new_style.py:316 | a node's strong component holds exactly the nodes it reaches and is reached from |
| Digraph.Sccs | XMLify/excel_export/new_style.py:316 | `strongly_connected_components` lists every strong component exactly once: each listed set is some node's strong component, every node lies in a listed set, no two listed sets meet, and none is listed twice |
| Digraph.SccClassLike | XMLify/excel_export/new_style.py:316 | strong components behave as equivalence classes: each node lies in its own component, and two components that meet coincide |
| Digraph.RepsPartition | XMLify/excel_export/new_style.py:316 | the classes of the representatives picked along a node list cover each of its nodes and are pairwise disjoint |
| Digraph.ClassesFacts | XMLify/excel_export/new_style.py:316 | every node of the list lies in one of the picked classes, the classes are pairwise disjoint and no class is listed twice |
| Digraph.SccMeet | XMLify/excel_export/new_style.py:316 | two strong components that share a node coincide: a node of one is in the other |
| Ordering.Acronym | XMLify/excel_export/new_style.py:114-142 | an unknown type is its own prefix; a known one maps to a non-empty prefix ending in `_` that differs from the type |
| Ordering.NodeName | XMLify/excel_export/new_style.py:152-157 | the node name ends with the instance name, behind the type itself when the type is unknown |
| Ordering.OfInDegree | XMLify/excel_export/new_style.py:226-233 | exactly the nodes of that in-degree, none when no node has it |
| Ordering.MinInDegree | XMLify/excel_export/new_style.py:232 | the minimum bounds every in-degree and is attained |
| Ordering.SourcesSpec | XMLify/excel_export/new_style.py:226-233 | the sources are the nodes nothing points to when there are any, otherwise exactly the nodes of least in-degree; a non-empty graph always has one |
| Ordering.WalkOrder | XMLify/excel_export/new_style.py:289-331 | as intended, the walk lists every node of the component exactly once |
| Ordering.LongestPathLevels | XMLify/excel_export/new_style.py:281-304 | as intended, every node of the component gets a level |
| Ordering.LongestPathLevelsAsWritten | XMLify/excel_export/new_style.py:289-293 | as written, levels come back exactly when the component has a topological order |
| Ordering.FindGroup | XMLify/excel_export/new_style.py:249-254 | the first group holding the node, or none when no group holds it |
| Ordering.WalkLevels | XMLify/excel_export/new_style.py:296-302 | the levels are keyed by exactly the walked nodes |
| Ordering.LevelledOrder | XMLify/excel_export/new_style.py:246-254 | every walked node gets an order and a group label, and no other node does |
| Ordering.LevelledOrderIs | XMLify/excel_export/new_style.py:246-254 | an assignment giving each walked node its level plus one and its group's label is the levelled order |
| Ordering.LevelledOrderGrouped | XMLify/excel_export/new_style.py:246-254 | every walked node lies in a parallel group, so its label names that group, and its order is its level plus one |
| Ordering.ComplexOrder | XMLify/excel_export/new_style.py:218-279 | as intended, every node of the component gets an order and a group label |
| Ordering.ComplexOrderCovers | XMLify/excel_export/new_style.py:218-279 | as intended, exactly the component's nodes are ordered, each at its longest-path level plus one, labelled with the first parallel group holding it |
| Ordering.ComplexOrderMonotone | XMLify/excel_export/new_style.py:238-302 | in an acyclic component every edge climbs at least one order |
| Ordering.AcyclicSources | XMLify/excel_export/new_style.py:226-233 | in an acyclic component the sources are exactly the nodes nothing points to |
| Ordering.FirstHasNoPreds | XMLify/excel_export/new_style.py:226 | the head of a topological order has in-degree 0 |
| Ordering.BfsOrder | XMLify/excel_export/new_style.py:256-277 | the fallback gives every ordered node, and only those, a label naming its level alone, without a group; each order is one more than that level, so at least 1 |
| Ordering.LevelOnly | XMLify/excel_export/new_style.py:275-277 | exactly the levelled nodes are ordered, each at its level plus one and labelled by that level alone |
| Ordering.BfsOrderReach | XMLify/excel_export/new_style.py:256-277 | the fallback orders exactly the nodes reachable from the sources |
| Ordering.ComplexOrderAsWritten | XMLify/excel_export/new_style.py:218-293 | as written: on a component with a topological order, exactly the corrected `ComplexOrder`; on a cyclic one the breadth-first fallback, which orders exactly the nodes the sources reach |
| Ordering.CyclicExampleCyclic | XMLify/excel_export/new_style.py:289-293 | the example with the cycle A, B has no topological order |
| Ordering.TwoCycleUnordered | XMLify/excel_export/new_style.py:290 | no order puts A before B and B before A |
| Ordering.CyclicExampleSources | XMLify/excel_export/new_style.py:226 | D is the example's only source |
| Ordering.CyclicExampleReach | XMLify/excel_export/new_style.py:263-273 | from D only D and C are reached |
| Ordering.CycleSkipsBreaker | XMLify/excel_export/new_style.py:289-293 | as written, the example is levelled breadth-first, and A and B get no order |
| Ordering.AsWrittenUnreached | XMLify/excel_export/new_style.py:256-293 | as written, a cyclic component is levelled breadth-first, and a node its sources do not reach gets no order |
| Ordering.CycleUsesBreaker | XMLify/excel_export/new_style.py:289-331 | as intended, all four nodes of the example get an order |
| Ordering.ComponentAssignment | XMLify/excel_export/new_style.py:182-194 | a component's assignment covers exactly its nodes (corrected ordering of the Findings row) |
| Ordering.Merge | XMLify/excel_export/new_style.py:193-194 | the merged keys are exactly those of some part |
| Ordering.MergeAt | XMLify/excel_export/new_style.py:193-194 | a node no later part mentions keeps what its own part gave it |
| Ordering.MergeStep | XMLify/excel_export/new_style.py:193-194 | merging one more assignment is one more `dict.update` on both maps |
| Ordering.AssignComponents | XMLify/excel_export/new_style.py:181-194 | the merged orders and groups have the same keys |
| Ordering.AssignFirstMerges | XMLify/excel_export/new_style.py:181-194 | after each round the loop holds the merge of the components seen |
| Ordering.FillUnconnected | XMLify/excel_export/new_style.py:205-209 | the fill adds every cache name without an order at order 0 with the group `unconnected`, and keeps every existing order and group |
| Ordering.FillUnconnectedIs | XMLify/excel_export/new_style.py:205-209 | an assignment with the old entries and `0`/`unconnected` for each added name is the fill |
| Ordering.TransformationOrder | XMLify/excel_export/new_style.py:162-216 | the orders and groups have the same keys (corrected ordering of the Findings row) |
| Ordering.MergeDisjoint | XMLify/excel_export/new_style.py:193-194 | merging over disjoint components loses nothing: each node keeps its own component's values |
| Ordering.AssignComponentsAt | XMLify/excel_export/new_style.py:181-194 | each node gets its own component's assignment (corrected ordering of the Findings row) |
| Ordering.TransformationOrderAt | XMLify/excel_export/new_style.py:177-194 | the node of a one-node component gets order 0 and its `isolated_` label; a node of a larger one its complex order, at least 1, and label (corrected ordering of the Findings row) |
| Ordering.ComponentOf | XMLify/excel_export/new_style.py:179 | each node lies in one weak component |
| Ordering.EdgeInComponent | XMLify/excel_export/new_style.py:179-182 | an edge never leaves its weak component and stays in its subgraph |
| Ordering.SelfLoopCyclic | XMLify/excel_export/new_style.py:290 | a self-loop leaves no topological order |
| Ordering.TransformationOrderMonotone | XMLify/excel_export/new_style.py:162-194 | within an acyclic component every edge climbs to a higher order |
| Levels.MaxLevel | XMLify/excel_export/new_style.py:301-302 | the maximum of the predecessors' levels bounds each of them and is attained |
| Levels.LevelsAlong | XMLify/excel_export/new_style.py:296-302 | exactly the walked nodes get a level |
| Levels.LevelsLoop | XMLify/excel_export/new_style.py:296-302 | the walk loop gives exactly `LevelsAlong` |
| Levels.LevelsAlongStep | XMLify/excel_export/new_style.py:296-302 | one more walked node gets its level from the levels so far |
| Levels.LevelsAlongStable | XMLify/excel_export/new_style.py:296-302 | on a walk without repeats a node's level is fixed when it is walked and never changes afterwards |
| Levels.LevelsAlongAt | XMLify/excel_export/new_style.py:296-302 | on a walk without repeats a node's final level is the one computed from the levels before it |
| Levels.LevelsOfSources | XMLify/excel_export/new_style.py:297-302 | a source, or a node with no predecessor, gets level 0 |
| Levels.LevelsMonotone | XMLify/excel_export/new_style.py:296-302 | along a topological order whose sources are the nodes nothing points to, every edge climbs at least one level |
| Levels.LevelsLongestPath | XMLify/excel_export/new_style.py:296-302 | along a topological order a non-source node with predecessors sits one level above its highest predecessor: above every one, and exactly one above some |
| Levels.FirstMax | XMLify/excel_export/new_style.py:323 | the first index of a largest value |
| Levels.FirstMin | XMLify/excel_export/new_style.py:324 | the first index of a smallest value |
| Levels.FirstMaxOut | XMLify/excel_export/new_style.py:323 | `max(scc, key=out_degree)` picks the first node of largest out-degree |
| Levels.FirstMinIn | XMLify/excel_export/new_style.py:324 | `min(scc, key=in_degree)` picks the first node of smallest in-degree |
| Levels.CycleEdge | XMLify/excel_export/new_style.py:321-326 | the removed edge, when there is one, is an edge of the graph inside the component |
| Levels.BreakCycles | XMLify/excel_export/new_style.py:311-326 | the removal pass keeps the nodes, only removes edges, and keeps the graph well formed |
| Levels.BreakCyclesStep | XMLify/excel_export/new_style.py:319-326 | one more component is one more removal |
| Levels.HandleCyclicGraph | XMLify/excel_export/new_style.py:306-331 | the removal loop, then the order, gives exactly `HandleCyclic` |
| Levels.HandleCyclicPermutes | XMLify/excel_export/new_style.py:306-331 | the cycle breaker returns every node exactly once |
| Levels.BreakCyclesRemoves | XMLify/excel_export/new_style.py:319-326 | at most one edge per multi-node component is removed, and every removed edge lies inside one |
| Levels.Visit | XMLify/excel_export/new_style.py:267-273 | the successor visit adds exactly the successors, queues exactly the new ones, keeps the queue, and leaves levels at least 1 or unchanged |
| Levels.BfsRunProgress | XMLify/excel_export/new_style.py:263-273 | each round of the queue loop either levels a new node or shortens the queue, so the loop ends |
| Levels.BfsRunFacts | XMLify/excel_export/new_style.py:263-273 | the queue loop levels exactly the nodes reachable from the start, and every non-source at level 1 or more |
| Levels.BfsReach | XMLify/excel_export/new_style.py:259-273 | the fallback levels exactly the nodes reachable from the sources, each source included, and every other node at 1 or more |
| Levels.VisitLevels | XMLify/excel_export/new_style.py:267-273 | a new successor gets the current level plus one; a seen one the larger of its level and that; any other node keeps its level |
| Levels.BfsRunKeepsZero | XMLify/excel_export/new_style.py:263-273 | a node nothing points to keeps level 0 |
| Levels.BfsSourcesAtZero | XMLify/excel_export/new_style.py:259-273 | a source nothing points to ends at level 0 |
| Levels.VisitSuccessors | XMLify/excel_export/new_style.py:267-273 | the successor loop gives exactly `Visit` |
| Levels.BfsLevels | XMLify/excel_export/new_style.py:259-273 | the queue loop gives exactly `Bfs`: the nodes reachable from the sources, every non-source at 1 or more |
| ParallelGroups.Names | XMLify/excel_export/new_style.py:339 | the nodes of the level items, one for one |
| ParallelGroups.ItemsOf | XMLify/excel_export/new_style.py:246-339 | the items list exactly the walked nodes, each with its level |
| ParallelGroups.OfLevelIff | XMLify/excel_export/new_style.py:339-342 | the bucket of a level holds exactly the nodes at that level, each once |
| ParallelGroups.SeenLevelsIff | XMLify/excel_export/new_style.py:340-341 | the buckets are keyed by exactly the levels that occur, each once |
| ParallelGroups.Round | XMLify/excel_export/new_style.py:358-373 | a round takes only remaining nodes, always the first one, takes each once, and no two of them are joined by a path |
| ParallelGroups.RoundMaximal | XMLify/excel_export/new_style.py:361-369 | a node left out of its round is joined by a path to a node taken before it |
| ParallelGroups.Without | XMLify/excel_export/new_style.py:378 | exactly the remaining nodes not taken, fewer than before when the first was taken |
| ParallelGroups.Flatten | XMLify/excel_export/new_style.py:249-250 | a node is in the flattened groups exactly when some group holds it |
| ParallelGroups.FlattenAppend | XMLify/excel_export/new_style.py:376-382 | the nodes of groups appended one after another |
| ParallelGroups.SplitRoundsPartition | XMLify/excel_export/new_style.py:354-384 | the rounds of a level hold each of its nodes exactly once, and none is empty |
| ParallelGroups.SplitRoundsUnrelated | XMLify/excel_export/new_style.py:361-373 | no round holds two nodes joined by a path |
| ParallelGroups.LevelGroupsFacts | XMLify/excel_export/new_style.py:348-384 | a level's groups hold each of its nodes exactly once, none is empty, and none holds two nodes joined by a path |
| ParallelGroups.LevelBlockFacts | XMLify/excel_export/new_style.py:348-384 | the groups of one level partition the nodes at that level |
| ParallelGroups.GroupsOfLevelsFacts | XMLify/excel_export/new_style.py:348-384 | the groups of several levels partition their nodes, each group within one level, pairwise unrelated |
| ParallelGroups.GroupsPartition | XMLify/excel_export/new_style.py:333-386 | the parallel groups hold every levelled node exactly once, each group lies within one level, and no two of its nodes are joined by a path either way |
| ParallelGroups.SingleNodeLevel | XMLify/excel_export/new_style.py:349-351 | a level with one node is a group of its own |
| ParallelGroups.CanAdd | XMLify/excel_export/new_style.py:363-369 | the path test is exactly `Independent` |
| ParallelGroups.FormRound | XMLify/excel_export/new_style.py:358-373 | the loop over the remaining nodes gives exactly `Round` and takes its nodes |
| ParallelGroups.SplitLevel | XMLify/excel_export/new_style.py:354-384 | the `while remaining_nodes` loop gives exactly `SplitRounds` |
| ParallelGroups.SplitOnce | XMLify/excel_export/new_style.py:356-378 | one round shortens the remaining nodes and keeps the target in reach |
| ParallelGroups.BucketByLevel | XMLify/excel_export/new_style.py:338-342 | the buckets are keyed by the levels in the order met, each holding exactly its level's nodes in order |
| ParallelGroups.IdentifyParallelGroups | XMLify/excel_export/new_style.py:333-386 | the bucket loop and the level loop give exactly `Groups` |
| ParallelGroups.GroupLevel | XMLify/excel_export/new_style.py:349-384 | one level's groups are exactly `LevelGroups` |
| Logic.KindOf | XMLify/excel_export/new_style.py:436-510 | a branch is chosen by the upper-cased type, and the Source Qualifier branch only in the extractor that has it |
| Logic.KindCaseInsensitive | XMLify/excel_export/new_style.py:436-492 | the branch chosen ignores case |
| Logic.SourceQualifierWithoutBranch | XMLify/logical/logic_conn_csv_export.py:208-296 | a Source Qualifier takes its own branch in the lineage generator and the default branch in the connector extractor |
| Logic.Collect | XMLify/excel_export/new_style.py:438-442 | a field loop succeeds exactly when no field raises, keeps at most one part per field, and keeps exactly the parts the fields give |
| Logic.CollectNonEmpty | XMLify/excel_export/new_style.py:438-442 | a loop that appends only non-empty parts yields only non-empty parts |
| Logic.ExpressionPart | XMLify/excel_export/new_style.py:438-442 | a field gives `<name> = <expression>` only for a non-blank expression, and raises when not a dict or when the expression cannot be stripped |
| Logic.AggregatorPart | XMLify/excel_export/new_style.py:475-482 | a `GROUPBY` of `YES` gives `GROUP BY: <name>`; otherwise the field is an expression field; a non-dict raises |
| Logic.SorterPart | XMLify/excel_export/new_style.py:486-490 | a dict field gives a part exactly when its `SORTKEY` is `YES`; a non-dict raises |
| Logic.FieldPart | XMLify/excel_export/new_style.py:512-515 | a dict field gives a part exactly when its name is truthy; a non-dict raises |
| Logic.AttributePart | XMLify/excel_export/new_style.py:498-507 | an attribute gives a part only when it is a dict whose name is a non-empty string naming no metadata and whose value is non-blank; a metadata name gives none |
| Logic.FilterAttribute | XMLify/excel_export/new_style.py:455-461 | the condition found is truthy and is the value of one of the attributes |
| Logic.ExtractLogic | XMLify/excel_export/new_style.py:427-533 | the logic can be extracted exactly when its branch's parts can |
| Logic.LoopPartsNonEmpty | XMLify/excel_export/new_style.py:438-531 | a loop whose parts are never empty yields no empty part |
| Logic.PartsNonEmpty | XMLify/excel_export/new_style.py:436-531 | no branch yields an empty part |
| Logic.ExtractLogicNonEmpty | XMLify/excel_export/new_style.py:533 | the logic is never empty, and with no parts it is `<type> transformation` |
| Logic.AggregatorGroupBy | XMLify/excel_export/new_style.py:478-480 | every group-by field of an Aggregator shows up as `GROUP BY: <name>` |
| Logic.SkippedAttributesDropped | XMLify/excel_export/new_style.py:503-507 | every Source Qualifier part comes from an attribute whose name mentions no metadata |
| Logic.CollectParts | XMLify/excel_export/new_style.py:438-442 | the field loop appends exactly `Collect`'s parts, or raises with its error |
| Logic.CollectErr | XMLify/excel_export/new_style.py:438-442 | a prefix that raises makes the whole loop raise with the same error |
| Logic.FindFilterCondition | XMLify/excel_export/new_style.py:455-461 | the attribute loop with its `break` gives exactly `FilterAttribute` |
| Logic.LoopOver | XMLify/excel_export/new_style.py:432-438 | a loop over a dict or list appends exactly `LoopParts` |
| Logic.FilterBranch | XMLify/excel_export/new_style.py:444-464 | the Filter branch gives exactly `FilterParts` |
| Logic.BranchParts | XMLify/excel_export/new_style.py:436-531 | the branch dispatch gives exactly `LogicParts` |
| Logic.ExtractLogicByType | XMLify/excel_export/new_style.py:427-533 | the method gives exactly `ExtractLogic` |
| NewStyle.MappingsIn | XMLify/excel_export/new_style.py:79-86 | every mapping found belongs to a dict folder of the list |
| NewStyle.MappingsInComplete | XMLify/excel_export/new_style.py:79-86 | every mapping of a folder preceded only by dict folders is found |
| NewStyle.MappingsInStops | XMLify/excel_export/new_style.py:79-92 | a folder that is not a dict raises inside the search, which then keeps only the mappings found before it |
| NewStyle.ExtractMappingsSingleFolder | XMLify/excel_export/new_style.py:64-86 | a single folder dict under `POWERMART` / `REPOSITORY` yields exactly its mappings, one dict or a list |
| NewStyle.FindFrom | XMLify/excel_export/new_style.py:96-102 | the index found is the first mapping whose `@NAME` is the name, every earlier one being a dict with another name; none is found exactly when every mapping is a dict with another name; it raises only on a mapping that is not a dict |
| NewStyle.CheckIfMappingExists | XMLify/excel_export/new_style.py:96-102 | the search loop gives exactly `FindFrom` from the first mapping |
| NewStyle.FetchConnectors | XMLify/excel_export/new_style.py:104-107 | `mapping_data['CONNECTOR']` succeeds exactly when the key is present and its value can be iterated, and gives what the iteration yields |
| NewStyle.FetchAll | XMLify/excel_export/new_style.py:109-147 | an absent key gives no items; a present one succeeds exactly when its value can be iterated |
| NewStyle.Index | XMLify/excel_export/new_style.py:152-157 | `record[key]` succeeds exactly when the record is a dict holding the key, and gives its value |
| NewStyle.InstanceNode | XMLify/excel_export/new_style.py:151-152 | an instance has a node exactly when it holds both `@TRANSFORMATION_TYPE` and `@NAME` |
| NewStyle.ConnectorEdge | XMLify/excel_export/new_style.py:154-157 | a connector has an edge exactly when it holds the four instance and type keys |
| NewStyle.AddNodes | XMLify/excel_export/new_style.py:151-152 | adding names keeps the graph well formed and its edges, and adds exactly those names |
| NewStyle.Ends | XMLify/excel_export/new_style.py:157 | the endpoints of some edges are exactly the sources and targets of those edges |
| NewStyle.AddEdges | XMLify/excel_export/new_style.py:154-157 | adding edges keeps the graph well formed, adds exactly those edges and adds their endpoints as nodes |
| NewStyle.LineageGraphShape | XMLify/excel_export/new_style.py:149-160 | the graph's nodes are exactly the instance nodes and the connector endpoints, and its edges exactly the connector edges |
| NewStyle.BuiltGraph | XMLify/excel_export/new_style.py:149-160 | nodes then edges, added in turn, give a well-formed graph with exactly those nodes and edges |
| NewStyle.InstancesAreNodes | XMLify/excel_export/new_style.py:151-152 | every instance is a node of the graph |
| NewStyle.CacheLogicNonEmpty | XMLify/excel_export/new_style.py:399-533 | every cached logic text is non-empty |
| NewStyle.CacheHas | XMLify/excel_export/new_style.py:580-585 | a name that is a list or dict cannot be looked up (it raises), and the lookup finds it exactly when it is a cached string |
| NewStyle.ConnectorOrder | XMLify/excel_export/new_style.py:566-576 | a record holds its target node's order, or 0 and execution level 0 when the node has none; its group is the node's, else `unknown`; a positive order is one more than the execution level, and the level never exceeds the order |
| NewStyle.ConnectorLogicLookup | XMLify/excel_export/new_style.py:535-604 | a dict connector is dropped exactly when a name it must look up is unhashable; the logic is the target's, else the source's, else empty |
| NewStyle.TransformationOrderKeys | XMLify/excel_export/new_style.py:177-194 | without the fill, every node of the graph gets exactly one order and one group (corrected ordering of the Findings row) |
| NewStyle.MergeKeys | XMLify/excel_export/new_style.py:193-194 | merging the components' assignments keys the union of the components (corrected ordering of the Findings row) |
| NewStyle.GenerateStages | XMLify/excel_export/new_style.py:42-49 | the generator succeeds exactly when every fetch, the graph, and the logic cache succeed, and then holds each stage's result, with the orders computed before the cache, so without the fill (corrected ordering of the Findings row) |
| NewStyle.CacheNames | XMLify/excel_export/new_style.py:205-206 | the cache names are there exactly when the mapping has a cache, and are its keys |
| NewStyle.OrdersAreGraphNodes | XMLify/excel_export/new_style.py:177-209 | in a full run the orders and groups are keyed by exactly the graph's nodes, since the cache is still empty when they are computed (corrected ordering of the Findings row) |
| NewStyle.RecordsPerConnector | XMLify/excel_export/new_style.py:51-56 | a run yields at most one record per connector, and exactly one each when every connector is a dict with string instance names |
| NewStyle.ProcessAllCount | XMLify/excel_export/new_style.py:51-56 | at most one record per connector, and one each when every connector is a dict with string instance names |
| NewStyle.InfaLineageGenerator.constructor | XMLify/excel_export/new_style.py:25-34 | a new generator holds its name and data, empty lists and caches, and the search result; the mapping exists exactly when the search finds an index, and then its data is that mapping, a dict |
| NewStyle.InfaLineageGenerator.FetchAllConnectors | XMLify/excel_export/new_style.py:104-107 | the connectors loop fails exactly when `FetchConnectors` does, and otherwise appends exactly its items |
| NewStyle.InfaLineageGenerator.FetchAllTransformations | XMLify/excel_export/new_style.py:109-112 | the loop fails exactly when `FetchAll` of `TRANSFORMATION` does, and otherwise appends exactly its items |
| NewStyle.InfaLineageGenerator.FetchAllInstances | XMLify/excel_export/new_style.py:144-147 | the loop fails exactly when `FetchAll` of `INSTANCE` does, and otherwise appends exactly its items |
| NewStyle.InfaLineageGenerator.CreateBasicLineageGraph | XMLify/excel_export/new_style.py:149-160 | the two loops fail exactly when `LineageGraph` does, and otherwise build exactly it, well formed |
| NewStyle.InfaLineageGenerator.CalculateTransformationOrder | XMLify/excel_export/new_style.py:162-216 | the orders and groups are exactly `TransformationOrder` of the graph, filled from the names cached for the mapping (corrected ordering of the Findings row) |
| NewStyle.InfaLineageGenerator.ExtractTransformationLogic | XMLify/excel_export/new_style.py:388-409 | the cache fails exactly when `LogicCacheOf` does, and otherwise stores exactly it under the mapping name |
| NewStyle.InfaLineageGenerator.ProcessMapping | XMLify/excel_export/new_style.py:51-56 | the loop appends exactly the records of `ProcessAll` |
| NewStyle.InfaLineageGenerator.FetchAndBuild | XMLify/excel_export/new_style.py:43-46 | the three fetches and the graph fail exactly when one of their specifications does, and otherwise hold exactly their results |
| NewStyle.InfaLineageGenerator.OrderAndProcess | XMLify/excel_export/new_style.py:47-49 | orders computed before the cache, so without the fill; then the cache and the records (corrected ordering of the Findings row) |
| NewStyle.InfaLineageGenerator.CacheAndProcess | XMLify/excel_export/new_style.py:48-49 | the cache is stored under the mapping name and the records are exactly `ProcessAll` |
| NewStyle.InfaLineageGenerator.Run | XMLify/excel_export/new_style.py:42-49 | `main` fails exactly when a stage does; otherwise every field holds its stage's result, the orders being unfilled (corrected ordering of the Findings row) |
| NewStyle.AssignAllComponents | XMLify/excel_export/new_style.py:177-194 | the component loop gives exactly `TransformationOrder` without the fill (corrected ordering of the Findings row) |
| NewStyle.CalculateComplexOrder | XMLify/excel_export/new_style.py:218-279 | the levels, groups and labels give exactly `ComplexOrder` (corrected ordering of the Findings row) |
| NewStyle.WalkSub | XMLify/excel_export/new_style.py:286-291 | the walk order of the levelling: the topological order when one exists, otherwise the cycle breaker's order, exactly `WalkOrder` (corrected ordering of the Findings row) |
| NewStyle.AssignLevels | XMLify/excel_export/new_style.py:246-254 | every levelled node gets its level plus one and the label of its group, or the single label when it has none |
| NewStyle.FindGroupIn | XMLify/excel_export/new_style.py:249-254 | the group search gives exactly `FindGroup` |
| NewStyle.AddInstanceNodes | XMLify/excel_export/new_style.py:151-152 | the node loop fails exactly when some instance has no node, and otherwise adds exactly the instance nodes |
| NewStyle.AddConnectorEdges | XMLify/excel_export/new_style.py:154-157 | the edge loop fails exactly when some connector has no edge, and otherwise adds exactly the connector edges |
| NewStyle.FillFromCache | XMLify/excel_export/new_style.py:205-209 | the fill loop gives exactly `FillUnconnected` |
| NewStyle.NewGenerator | XMLify/excel_export/new_style.py:25-40 | construction fails when the mapping is missing or a stage of `main` fails; otherwise the generator holds the records, orders and groups of `Generate` (corrected ordering of the Findings row) |
| NewStyle.CalculateComponentOrder | XMLify/excel_export/new_style.py:182-194 | a one-node component gets exactly `ComponentAssignment`: order 0 and the isolated label; a larger one the complex order (corrected ordering of the Findings row) |
| LogicConn.MappingName | XMLify/logical/logic_conn_csv_export.py:163-169 | a mapping with none of `@NAME`, `NAME`, `@name`, `name` is `Unknown Mapping` |
| LogicConn.ConnEntryOf | XMLify/logical/logic_conn_csv_export.py:180-190 | a transformation's cache entry holds its type and a non-empty logic text, and exists exactly when its logic can be extracted |
| LogicConn.ConnLogicCacheSpec | XMLify/logical/logic_conn_csv_export.py:171-190 | the mapping's cache holds exactly the names of its transformations, each with the entry of the last transformation of that name |
| LogicConn.ConnEndSpec | XMLify/logical/logic_conn_csv_export.py:321-328 | a connector contributes an edge exactly when it is a dict whose two instance names are non-empty strings, and the edge joins them; a connector that is not a dict, or an unhashable name, raises |
| LogicConn.ConnEdgesSpec | XMLify/logical/logic_conn_csv_export.py:321-328 | the connector loop succeeds exactly when no connector raises, and the edges are exactly those the connectors contribute |
| LogicConn.ConnGraph | XMLify/logical/logic_conn_csv_export.py:318-332 | the graph's nodes are exactly the edges' endpoints and its edges exactly the edges collected |
| LogicConn.ConnGraphShape | XMLify/logical/logic_conn_csv_export.py:321-332 | only connectors with both instance names non-empty make edges, and every node is such a non-empty name |
| LogicConn.ConnComponentOrders | XMLify/logical/logic_conn_csv_export.py:343-381 | a component's orders are given only to its own nodes |
| LogicConn.MergeMapsAt | XMLify/logical/logic_conn_csv_export.py:343-381 | since components are disjoint, a node's order is the one its own component gives it |
| LogicConn.ConnOrdersAt | XMLify/logical/logic_conn_csv_export.py:341-381 | the node of a one-node component gets order 0; in a larger component exactly the nodes reachable from its sources get an order, their breadth-first level plus one, so at least 1, and a source with no incoming edge gets exactly 1 (levels relative to the model's fixed node order) |
| LogicConn.ConnOrdersKeys | XMLify/logical/logic_conn_csv_export.py:337-381 | only nodes of the graph get an order |
| LogicConn.FillZero | XMLify/logical/logic_conn_csv_export.py:394-398 | the fill adds the cache names, every name without an order getting 0, and leaves existing orders unchanged |
| LogicConn.FillZeroUnseen | XMLify/logical/logic_conn_csv_export.py:394-398 | a lookup with default 0 cannot tell that the fill happened |
| LogicConn.ConnTransformationOrderKeys | XMLify/logical/logic_conn_csv_export.py:312-401 | the orders are those of the graph's nodes plus the cache names, each cache name without an order holding 0 and every graph order kept |
| LogicConn.ProcessConnSpec | XMLify/logical/logic_conn_csv_export.py:403-457 | a record carries the connector's fields, the order of its target name (0 when it has none), and the logic of the target, else of the source, else empty; the handler yields no record exactly when a name that must be looked up is unhashable |
| LogicConn.RunMappingsPrefix | XMLify/logical/logic_conn_csv_export.py:97-117 | processing one more mapping appends its records and carries the cache on |
| LogicConn.RunMappingsErr | XMLify/logical/logic_conn_csv_export.py:97-117 | once a mapping raises, the whole run raises |
| LogicConn.RunMappingRecords | XMLify/logical/logic_conn_csv_export.py:97-117 | a mapping's records carry its number and name, at most one per connector, each with its target's graph order or 0, so the fill never shows in a record |
| LogicConn.RunMappingNamed | XMLify/logical/logic_conn_csv_export.py:97-117 | a mapping's records carry its number and name, at most one per connector |
| LogicConn.ProcessedRecords | XMLify/logical/logic_conn_csv_export.py:112-117 | every record of the connector loop carries the mapping's number and name and the unfilled order of its target |
| LogicConn.RunMappingsNumbered | XMLify/logical/logic_conn_csv_export.py:97-117 | records come mapping by mapping, numbered from 1, never past the number of mappings, each named after its mapping |
| LogicConn.MappingNames | XMLify/logical/logic_conn_csv_export.py:98 | one name per mapping, in order |
| LogicConn.OrdersOf | XMLify/logical/logic_conn_csv_export.py:561-566 | the orders of the selected records, one for one |
| LogicConn.MaxOf | XMLify/logical/logic_conn_csv_export.py:566 | `max` bounds every order and is one of them |
| LogicConn.BumpSpec | XMLify/logical/logic_conn_csv_export.py:560-562 | one more record bumps its order's group or adds a group of one: groups stay distinct, the total grows by one, and only that order's size changes |
| LogicConn.BumpKeys | XMLify/logical/logic_conn_csv_export.py:562 | the groups after one more record are the old ones and its order, still distinct |
| LogicConn.BumpTotal | XMLify/logical/logic_conn_csv_export.py:562 | one more record adds one to the summed sizes |
| LogicConn.BumpSizes | XMLify/logical/logic_conn_csv_export.py:562 | one more record adds one to its own order's size only |
| LogicConn.DistributionSpec | XMLify/logical/logic_conn_csv_export.py:560-568 | the distribution has one group per order that occurs, its size the number of occurrences, and the sizes sum to the number of records |
| LogicConn.SummarizeSpec | XMLify/logical/logic_conn_csv_export.py:549-571 | the summary is `{}` exactly when nothing is selected; otherwise the distribution counts sum to the number selected, the unconnected count is the number with order 0, the maximum order bounds every order and is attained, and the distinct targets number between 1 and the selected records |
| LogicConn.ImageCard | XMLify/logical/logic_conn_csv_export.py:565 | a non-empty selection has at least one and at most as many distinct targets as records |
| LogicConn.TypeHas | XMLify/logical/logic_conn_csv_export.py:580-581 | lower-casing an instance type succeeds exactly when it is a string |
| LogicConn.InformaticaMappingExtractor.constructor | XMLify/logical/logic_conn_csv_export.py:23-25 | a new extractor holds no records and an empty logic cache |
| LogicConn.InformaticaMappingExtractor.ExtractTransformationLogic | XMLify/logical/logic_conn_csv_export.py:171-190 | the mapping's cache is reset and then holds exactly `ConnLogicCache`; nothing else changes |
| LogicConn.InformaticaMappingExtractor.CalculateTransformationOrder | XMLify/logical/logic_conn_csv_export.py:312-401 | the edge loop, the component loop and the fill give exactly `ConnTransformationOrder` from the cache as it stands |
| LogicConn.InformaticaMappingExtractor.ProcessConnectors | XMLify/logical/logic_conn_csv_export.py:112-117 | the connector loop appends exactly the records the connectors yield, in order |
| LogicConn.InformaticaMappingExtractor.ProcessMapping | XMLify/logical/logic_conn_csv_export.py:97-117 | one mapping fails exactly when `RunMapping` does, and otherwise appends exactly its records and stores its logic cache |
| LogicConn.InformaticaMappingExtractor.ProcessWorkflowData | XMLify/logical/logic_conn_csv_export.py:83-123 | the records are reset and then hold exactly `RunWorkflow`, which is also returned |
| LogicConn.InformaticaMappingExtractor.GetLineageSummary | XMLify/logical/logic_conn_csv_export.py:549-571 | the grouping loop gives exactly `Summarize` of the held records |
| LogicConn.InformaticaMappingExtractor.FilterByMapping | XMLify/logical/logic_conn_csv_export.py:573-575 | exactly the held records whose lower-cased mapping name contains the lower-cased query |
| LogicConn.InformaticaMappingExtractor.FilterByInstanceType | XMLify/logical/logic_conn_csv_export.py:577-581 | exactly the held records whose lower-cased from type or to type contains the lower-cased query; a type that cannot be lower-cased raises |
| LogicConn.InformaticaMappingExtractor.FilterByOrder | XMLify/logical/logic_conn_csv_export.py:583-585 | exactly the held records whose order equals the given one |
| LogicConn.ComponentOrders | XMLify/logical/logic_conn_csv_export.py:341-381 | the component loop, with the breadth-first queue for larger components, gives exactly `ConnOrders` (relative to the model's fixed node order) |
| LogicConn.FillCacheNames | XMLify/logical/logic_conn_csv_export.py:395-398 | the fill loop gives exactly `FillZero` |
| LogicConn.FillZeroOnly | XMLify/logical/logic_conn_csv_export.py:395-398 | a map with the old orders, and 0 for every added cache name, is the fill |
| ConnExport.CsvMappingsSpec | XMLify/csv_expos/conn_csv_export.py:113-154 | with no workflow name every raise is caught and there are no mappings; otherwise the folder is a list, and the mappings are the `MAPPING` of `folder[0]` when it has one, else of `folder[1]`, a dict standing for a one-element list and anything else for none |
| ConnExport.CsvMappingsDictFolder | XMLify/csv_expos/conn_csv_export.py:116-139 | a single folder dict cannot be indexed, so it yields no mappings |
| ConnExport.ConnFieldSpec | XMLify/csv_expos/conn_csv_export.py:184-203 | each field is the `@`-prefixed key's value when truthy, else the plain key's value, else `''` |
| ConnExport.ProcessConnectorSpec | XMLify/csv_expos/conn_csv_export.py:179-218 | a record is made exactly for a dict connector; it carries the mapping's number and name and the six fields taken `@`-key first |
| ConnExport.MappingRecordsSpec | XMLify/csv_expos/conn_csv_export.py:92-177 | a mapping yields one record per dict connector, in connector order, a single connector dict standing for a list of one |
| ConnExport.CsvRunPrefix | XMLify/csv_expos/conn_csv_export.py:92-105 | processing one more mapping appends its records, numbered after its position from 1 |
| ConnExport.CsvRunErr | XMLify/csv_expos/conn_csv_export.py:92-97 | once a mapping raises, the whole run raises |
| ConnExport.CsvRunSpec | XMLify/csv_expos/conn_csv_export.py:78-111 | the run succeeds exactly when every mapping is a dict; it then holds exactly one record per dict connector, numbered from 1 in mapping order and named after its mapping |
| ConnExport.CsvRunOk | XMLify/csv_expos/conn_csv_export.py:92-97 | the run succeeds exactly when every mapping is a dict |
| ConnExport.CsvRunRecords | XMLify/csv_expos/conn_csv_export.py:92-105 | a successful run has one record per dict connector, numbered and named after its mapping, in mapping order |
| ConnExport.NumberedStep | XMLify/csv_expos/conn_csv_export.py:92-105 | appending the next mapping's records keeps the numbering in order |
| ConnExport.ConnCsvExtractor.constructor | XMLify/csv_expos/conn_csv_export.py:19-20 | a new extractor holds no records and no workflow name |
| ConnExport.ConnCsvExtractor.ExtractMappings | XMLify/csv_expos/conn_csv_export.py:122-154 | returns exactly `CsvMappings`, records the workflow name when one is found, and leaves the records alone |
| ConnExport.ConnCsvExtractor.ProcessMapping | XMLify/csv_expos/conn_csv_export.py:93-105 | the connector loop appends exactly the mapping's records, or raises exactly when `MappingRecords` does |
| ConnExport.ConnCsvExtractor.ProcessMappings | XMLify/csv_expos/conn_csv_export.py:92-105 | the mapping loop appends exactly `CsvRun` of the mappings, or raises exactly when it does |
| ConnExport.ConnCsvExtractor.ProcessWorkflowData | XMLify/csv_expos/conn_csv_export.py:78-111 | the records are reset and then hold exactly `CsvWorkflow`, which is also returned |
| ConnExport.ConnCsvExtractor.FilterByMapping | XMLify/csv_expos/conn_csv_export.py:300-302 | exactly the held records whose lower-cased mapping name contains the lower-cased query |
| ConnExport.ConnCsvExtractor.FilterByInstanceType | XMLify/csv_expos/conn_csv_export.py:304-308 | exactly the held records whose lower-cased from type or to type contains the lower-cased query; a type that cannot be lower-cased raises |
| FieldModel.TextsOf | XMLify/fixed_lineage_maker.py:121-126 | each optional attribute read with default `""` gives one text per key, the key's string value or empty |
| FieldModel.FieldOf | XMLify/fixed_lineage_maker.py:118-127 | a field without `@NAME` raises; otherwise it carries its name and its six optional attributes |
| FieldModel.AttributeOf | XMLify/fixed_lineage_maker.py:136-137 | an attribute is read exactly when it has string `@NAME` and `@VALUE`, and gives them |
| FieldModel.TransformationOf | XMLify/fixed_lineage_maker.py:104-139 | a transformation parses exactly when its name, type, description, fields and attributes all do, and carries them |
| FieldModel.SingleFieldDict | XMLify/fixed_lineage_maker.py:113-116 | a single `TRANSFORMFIELD` dict gives the one field it describes |
| FieldModel.SingleAttributeDict | XMLify/fixed_lineage_maker.py:131-134 | a single `TABLEATTRIBUTE` dict gives a map of its one name and value |
| FieldModel.AttributesSpec | XMLify/fixed_lineage_maker.py:136-137 | the attribute map is keyed by exactly the attributes' names, each holding the value of its last attribute |
| FieldModel.Section | XMLify/fixed_lineage_maker.py:67-82 | an absent section gives no elements |
| FieldModel.Named | XMLify/fixed_lineage_maker.py:69-70 | each transformation paired with its name, in order |
| FieldModel.NamedStep | XMLify/fixed_lineage_maker.py:70 | one more transformation is stored under its name |
| FieldModel.InstanceOf | XMLify/fixed_lineage_maker.py:75-79 | an instance is read exactly when it has a string `@NAME` and a `@TYPE` |
| FieldModel.InstancePairs | XMLify/fixed_lineage_maker.py:75 | each instance paired with its name, in order |
| FieldModel.InstancePairsStep | XMLify/fixed_lineage_maker.py:75 | one more instance is stored under its name |
| FieldModel.WithInstancesStep | XMLify/fixed_lineage_maker.py:74-79 | one more instance is one more registration |
| FieldModel.InstancesSpec | XMLify/fixed_lineage_maker.py:73-79 | the instance loop appends the names of the `SOURCE` instances to the sources and those of the `TARGET` instances to the targets, in order, keeping the old ones |
| FieldModel.ConnectionOf | XMLify/fixed_lineage_maker.py:84-91 | a connector without one of its four required keys raises; otherwise the connection carries them and the two optional types |
| FieldModel.LoadOrderSingleDict | XMLify/fixed_lineage_maker.py:95-102 | a single `TARGETLOADORDER` dict is iterated by its keys, so the first element raises inside the `try` and nothing is recorded |
| FieldModel.Truncated | XMLify/fixed_lineage_maker.py:214-234 | a text over 100 characters is cut to its first 97 and `...`, so at most 100, and a shorter one is kept |
| FieldModel.FirstExpression | XMLify/fixed_lineage_maker.py:210-217 | the first field of that name with a non-empty expression, none when there is none |
| FieldModel.LogicParts | XMLify/fixed_lineage_maker.py:206 | the logic always starts with `Type: <type>` |
| FieldModel.LogicShape | XMLify/fixed_lineage_maker.py:200-237 | the logic is never empty, starts with `Type: `, and names the transformation as unknown when there is none |
| FieldModel.FirstNamed | XMLify/fixed_lineage_maker.py:243-244 | the first field of that name, none when there is none |
| FieldModel.DatatypeText | XMLify/fixed_lineage_maker.py:245-250 | the datatype alone without a precision; with one, `datatype(precision[,scale])`, the scale shown unless empty or `0` |
| FieldModel.FieldDatatypeOf | XMLify/fixed_lineage_maker.py:239-252 | an unknown instance or field gives `Unknown` |
| FieldModel.IntoSpec | XMLify/fixed_lineage_maker.py:145-147 | the connections into a field are exactly those entering it, in order |
| FieldModel.IntoEmpty | XMLify/fixed_lineage_maker.py:304 | a field has no connections in the reverse graph exactly when none enters it |
| FieldModel.ReverseGraphStep | XMLify/fixed_lineage_maker.py:145-147 | appending one connection to the list of the field it enters keeps the reverse graph of the longer list |
| FieldModel.ConnSuccFrom | XMLify/fixed_lineage_maker.py:346-367 | each third-rule successor comes from a connection into the current instance, moving to its source |
| FieldModel.SuccessorsAlike | XMLify/fixed_lineage_maker.py:303-367 | the instances, fields and levels an entry enqueues depend only on its own instance, field and level, not on its path or logic |
| FieldModel.ConnSuccAlike | XMLify/fixed_lineage_maker.py:343-366 | the same for the third rule, over any run of connections |
| FieldModel.VisitKeyInjective | XMLify/fixed_lineage_maker.py:274 | with dot-free instance names, the visited key `instance.field.depth` determines instance, field and depth |
| FieldModel.SuccessorsFollow | XMLify/fixed_lineage_maker.py:303-367 | every enqueued entry is one step back, at an instance and field a connection or a transformation provides |
| FieldModel.DerivedStep | XMLify/fixed_lineage_maker.py:265-367 | a successor of a reached entry is reached |
| FieldModel.DerivedPairs | XMLify/fixed_lineage_maker.py:265-367 | past the start, every queue entry sits at an instance and field a connection or a transformation provides |
| FieldModel.NoIncomingStays | XMLify/fixed_lineage_maker.py:303-367 | when nothing enters the instance, every successor stays in it |
| FieldModel.ConnSuccEmpty | XMLify/fixed_lineage_maker.py:346-367 | the third rule enqueues nothing exactly when no connection into an Expression has its source field named in the current field's expression |
| FieldModel.DeadEndIff | XMLify/fixed_lineage_maker.py:303-369 | a non-source entry enqueues nothing exactly when it is a dead end |
| FieldModel.SuccessorsWellFormed | XMLify/fixed_lineage_maker.py:308-366 | every successor of a well-formed entry is well formed |
| FieldModel.SuccessorFacts | XMLify/fixed_lineage_maker.py:265-367 | successors of a reached, well-formed entry are reached and well formed; without incoming connections they stay in the target; a dead end has none |
| FieldModel.In | XMLify/fixed_lineage_maker.py:175 | Python's `word in v`: a substring test on a string, an element test on a list, a key test on a dict, and a TypeError on any other value |
| FieldModel.SourceLikeType | XMLify/fixed_lineage_maker.py:173-177 | no `@TRANSFORMATION_TYPE` gives False; otherwise it is True exactly when `Source` or `Sequence` is in the value, and it raises exactly when `Source` cannot be searched for in it |
| FieldModel.SourceTest | XMLify/fixed_lineage_maker.py:154-198 | the source test raises only at a held instance whose type test raises |
| FieldModel.SourceTestSpec | XMLify/fixed_lineage_maker.py:154-198 | an instance is a source exactly when a name test, the type test, or (when the type test does not raise) a kind test or the no-incoming Expression test holds; the test raises exactly when no name test holds and the type test raises |
| FieldModel.RecordShape | XMLify/fixed_lineage_maker.py:282-295 | a record's count is its depth, it is direct exactly at depth 0 and then names the target column and its source table, and its path runs from the source to the target |
| Walks.InitInv | XMLify/fixed_lineage_maker.py:260-261 | the queue holding only the start, with nothing visited, satisfies the loop's invariant |
| Walks.PopStep | XMLify/fixed_lineage_maker.py:269-276 | dropping a head that is too deep or already visited keeps the invariant |
| Walks.TakeKey | XMLify/fixed_lineage_maker.py:274-277 | a new key keeps the visited keys unique and within the finite key space |
| Walks.EmitStep | XMLify/fixed_lineage_maker.py:280-298 | a head that stops appends its record and keeps the invariant |
| Walks.ExpandStep | XMLify/fixed_lineage_maker.py:300-367 | a head that does not stop enqueues its successors and keeps the invariant |
| Walks.Shrinks | XMLify/fixed_lineage_maker.py:274-277 | a new key shrinks what is left of the key space, so the loop ends |
| Walks.Walk | XMLify/fixed_lineage_maker.py:254-389 | every record is the record of an expanded entry that stops, and every expanded entry that stops gives a record; every expanded entry is within the bound; no key is expanded twice; the start is expanded unless the bound is negative, and then nothing is recorded; every successor within the bound of an expanded entry that does not stop has its key taken; a start that stops gives its own record alone, and a start that neither stops nor has successors gives nothing; the expanded entries are exactly `Dequeued` from the start (breadth-first order, the first-dequeued entry of each key), and the emitted entries are those of them that stop, in that order, one per key |
| Walks.Dequeued | XMLify/fixed_lineage_maker.py:260-277 | the reference run of the `popleft` loop: every entry it takes keeps `ok`, lies within the bound and has a key not seen before; an entry too deep or already seen is dropped, and a taken entry's successors join the back of the queue unless it stops |
| Walks.RunSkip | XMLify/fixed_lineage_maker.py:269-276 | dropping a head that is too deep or already visited leaves the rest of the run unchanged |
| Walks.RunTake | XMLify/fixed_lineage_maker.py:274-298 | a head whose key is new is the next entry of the run, emitted exactly when it stops |
| Walks.RunDone | XMLify/fixed_lineage_maker.py:265 | an empty queue leaves the taken entries equal to the whole run, and the emitted ones equal to its stopping entries |
| Walks.WhereUniqueKeys | XMLify/fixed_lineage_maker.py:274-298 | the emitted entries, being some of the expanded ones, have pairwise distinct keys: at most one record per visited key |
| Walks.OwedInit | XMLify/fixed_lineage_maker.py:260-261 | at the start nothing is owed but the queued start |
| Walks.OwedPop | XMLify/fixed_lineage_maker.py:269-276 | dropping a head that is too deep or already visited leaves every owed successor queued or visited |
| Walks.OwedEmit | XMLify/fixed_lineage_maker.py:280-298 | emitting a head records it as expanded and emitted and settles what was owed for it |
| Walks.OwedExpand | XMLify/fixed_lineage_maker.py:300-367 | expanding a head queues every successor it now owes |
| Walks.ChainLink | XMLify/fixed_lineage_maker.py:269-367 | when entries of one key are alike (same stop, level and successor keys), a successor within the bound of an expanded non-stopping key has its own key expanded |
| Walks.StopsEmitted | XMLify/fixed_lineage_maker.py:280-298 | when entries of one key are alike, an expanded key of an entry that stops was emitted |
| Walks.ChainReached | XMLify/fixed_lineage_maker.py:254-389 | completeness: when entries of one key are alike, the end of every path of the rules from the start through non-stopping entries within the bound has its key expanded, and if it stops its key emitted |
| FieldLineage.ParseTransformation | XMLify/fixed_lineage_maker.py:104-139 | the field loop and the attribute loop give exactly `TransformationOf` |
| FieldLineage.ParseFields | XMLify/fixed_lineage_maker.py:118-128 | the field loop fails exactly when some field does, and otherwise gives every field in order |
| FieldLineage.ParseAttributes | XMLify/fixed_lineage_maker.py:136-137 | the attribute loop fails exactly when some attribute does, and otherwise stores every attribute, a later name replacing an earlier one |
| FieldLineage.ReverseGraph | XMLify/fixed_lineage_maker.py:141-152 | every connection appears once, under its target instance and field, in input order, and only fed fields have entries |
| FieldLineage.FindExpression | XMLify/fixed_lineage_maker.py:210-217 | the loop with its `break` gives exactly `FirstExpression` |
| FieldLineage.FindField | XMLify/fixed_lineage_maker.py:243-251 | the loop gives exactly `FirstNamed` |
| FieldLineage.TraceClosed | XMLify/fixed_lineage_maker.py:265-367 | the three rules keep to reached, well-formed entries over finitely many instance and field pairs |
| FieldLineage.TraceStays | XMLify/fixed_lineage_maker.py:303-367 | a non-source target instance that nothing enters is never left |
| FieldLineage.TracePost | XMLify/fixed_lineage_maker.py:254-389 | the walk's promise, soundness and completeness, restated for `trace_lineage`, with the walk halting where the source test is True or raises: the expanded entries are the breadth-first run `Dequeued` (the first-dequeued entry of each visited key), and the records are those of its source entries, in that order, one per visited key; the target expanded unless the depth is negative; every successor within the depth of an expanded non-source entry has its visited key expanded; with dot-free instance names, every path from the target through non-sources within the depth ends at an expanded slot, emitted when a source |
| FieldLineage.PairsDotFree | XMLify/fixed_lineage_maker.py:274 | dot-free instance names of a mapping leave every reachable instance dot-free |
| FieldLineage.TraceCoherent | XMLify/fixed_lineage_maker.py:274-367 | with dot-free instance names, entries of one visited key stop alike, lie at one level and enqueue successors of the same keys |
| FieldLineage.KeySlot | XMLify/fixed_lineage_maker.py:274 | with dot-free instance names, two entries at instance and field pairs the rules can produce, with one visited key, share instance, field and level |
| FieldLineage.TraceChainIsChain | XMLify/fixed_lineage_maker.py:265-367 | a path of the three rules from the target through non-sources is a chain of the walk |
| FieldLineage.TraceReachesExpanded | XMLify/fixed_lineage_maker.py:254-389 | with dot-free instance names, the end of every such path had its slot expanded |
| FieldLineage.TraceReachesEmitted | XMLify/fixed_lineage_maker.py:280-298 | with dot-free instance names, the end of every such path at a source had its slot emitted |
| FieldLineage.TraceComplete | XMLify/fixed_lineage_maker.py:254-389 | completeness of `trace_lineage`: with dot-free instance names, every derivation from the target through non-sources within the depth ends at an expanded slot, and at a source at an emitted one |
| FieldLineage.TraceRecord | XMLify/fixed_lineage_maker.py:280-296 | the entry's record, or the raise of the source test at it exactly when that test raises |
| FieldLineage.TraceRaises | XMLify/fixed_lineage_maker.py:265-298 | some record is a raise exactly when the source test raises on an expanded entry |
| FieldLineage.TraceTargets | XMLify/fixed_lineage_maker.py:254-389 | a negative depth gives no records; a target at which the walk halts gives its one record; a dead-end target, or a non-source target nothing enters, gives none |
| FieldLineage.TraceCoversOf | XMLify/fixed_lineage_maker.py:265-367 | every successor of an expanded non-source entry within the depth is expanded by key, and with dot-free names every path of the rules is covered |
| FieldLineage.TraceEdges | XMLify/fixed_lineage_maker.py:300-367 | every successor within the depth of an expanded non-source entry has its visited key expanded |
| FieldLineage.LineageFramework.constructor | XMLify/fixed_lineage_maker.py:55-61 | a new framework holds empty collections |
| FieldLineage.LineageFramework.ParseMapping | XMLify/fixed_lineage_maker.py:63-102 | the four sections fail exactly when `ParseInto` does, and otherwise give exactly its state |
| FieldLineage.LineageFramework.ParseTransformations | XMLify/fixed_lineage_maker.py:67-70 | the transformation loop fails exactly when `TransformationsInto` does, and otherwise stores its result; nothing else changes |
| FieldLineage.LineageFramework.StoreTransformations | XMLify/fixed_lineage_maker.py:68-70 | every parsed transformation is stored under its name, nothing else changes |
| FieldLineage.LineageFramework.ParseInstances | XMLify/fixed_lineage_maker.py:73-79 | the instance loop fails exactly when `InstancesInto` does, and otherwise gives its state |
| FieldLineage.LineageFramework.StoreInstances | XMLify/fixed_lineage_maker.py:74-79 | every instance is registered in turn |
| FieldLineage.LineageFramework.ParseConnections | XMLify/fixed_lineage_maker.py:82-92 | the connector loop fails exactly when `ConnectionsInto` does, and otherwise appends its connections |
| FieldLineage.LineageFramework.AppendConnections | XMLify/fixed_lineage_maker.py:83-92 | every connection is appended in order |
| FieldLineage.LineageFramework.ParseLoadOrder | XMLify/fixed_lineage_maker.py:95-102 | the load orders are exactly `LoadOrderInto`; nothing else changes |
| FieldLineage.LineageFramework.StoreLoadOrders | XMLify/fixed_lineage_maker.py:96-102 | the entries before the first that raises are stored, and the rest skipped |
| FieldLineage.LineageFramework.BuildReverseGraph | XMLify/fixed_lineage_maker.py:141-152 | the reverse graph of the held connections |
| FieldLineage.LineageFramework.IsLineageSource | XMLify/fixed_lineage_maker.py:154-198 | the six tests in order, with the incoming-connection loop, give exactly `SourceTest`: True, False, or the TypeError the type test raises |
| FieldLineage.LineageFramework.TransformationLogic | XMLify/fixed_lineage_maker.py:200-237 | the method gives exactly `Logic` |
| FieldLineage.LineageFramework.FieldDatatype | XMLify/fixed_lineage_maker.py:239-252 | the method gives exactly `FieldDatatypeOf` |
| FieldLineage.LineageFramework.GetTargetFields | XMLify/fixed_lineage_maker.py:391-397 | strictly ascending, so without duplicates, and exactly the fields a connection into the target feeds |
| FieldLineage.LineageFramework.TraceLineage | XMLify/fixed_lineage_maker.py:254-389 | the trace raises exactly when the source test raises on an entry taken from the queue, with the error of the first raising record; otherwise it returns the records; every record is that of an entry reached from the target within the depth bound at a source, and every expanded source entry gives one; the expanded entries are the breadth-first run `Dequeued` (the first entry of each visited key to be dequeued) and the records follow its source entries in that order, one per visited key; no key is expanded twice; the target is expanded unless the depth is negative; every successor within the depth of an expanded non-source entry has its visited key expanded; with dot-free instance names, every derivation from the target through non-sources within the depth reaches an expanded slot and, at a source, an emitted one; a source target gives its one direct record; a dead-end target, or a non-source target nothing enters, gives none |
| ConnectorLineage.MappingsOf | XMLify/connector_based_lineage.py:32-35 | the folder loop succeeds exactly when every folder's `MAPPING` entry can be read, and then every mapping gathered comes from some folder |
| ConnectorLineage.MappingsStep | XMLify/connector_based_lineage.py:33-35 | one more folder extends the gathered mappings by that folder's, or raises its error |
| ConnectorLineage.MappingsErr | XMLify/connector_based_lineage.py:33-35 | once a folder raises, the whole loop raises the same error |
| ConnectorLineage.FindMapping | XMLify/connector_based_lineage.py:36-39 | the mapping found is the first whose `@NAME` is the requested name, and the not-found error is raised exactly when none has it |
| ConnectorLineage.ExtractNamed | XMLify/connector_based_lineage.py:25-44 | a mapping that is found is a dict carrying the requested name |
| ConnectorLineage.ExtractSingles | XMLify/connector_based_lineage.py:28-41 | a single folder dict holding a single mapping dict of that name gives that mapping |
| ConnectorLineage.LinkOf | XMLify/connector_based_lineage.py:60-81 | a connector gives a link exactly when it is a dict whose six attributes are all truthy; both ends are then named and categorised after those attributes |
| ConnectorLineage.ConnectorList | XMLify/connector_based_lineage.py:53-55 | no connectors exactly when the key is absent or falsy; a lone non-list connector becomes a list of itself |
| ConnectorLineage.LabelledPrefix | XMLify/connector_based_lineage.py:59-91 | every prefix of a list of labelled links is labelled |
| ConnectorLineage.GraphOfOk | XMLify/connector_based_lineage.py:59-91 | every node of the built graph carries attributes, and those attributes are the ones its name was made from |
| ConnectorLineage.AddLinkOk | XMLify/connector_based_lineage.py:84-90 | adding one labelled link keeps every node attributed after its name |
| ConnectorLineage.AddLinkNodes | XMLify/connector_based_lineage.py:84-87 | adding a link adds exactly its two ends as nodes |
| ConnectorLineage.AddLinkEdges | XMLify/connector_based_lineage.py:90 | adding a link adds exactly its edge |
| ConnectorLineage.InPrefix | XMLify/connector_based_lineage.py:59-91 | a link other than the last lies in the prefix |
| ConnectorLineage.GraphOfNodes | XMLify/connector_based_lineage.py:59-91 | the graph's nodes are exactly the ends of the usable connectors |
| ConnectorLineage.GraphOfEdges | XMLify/connector_based_lineage.py:59-91 | the graph's edges are exactly the usable connectors, repeats collapsed |
| ConnectorLineage.LinksLabelled | XMLify/connector_based_lineage.py:59-81 | every usable connector of a mapping gives a labelled link |
| ConnectorLineage.AddLinks | XMLify/connector_based_lineage.py:59-91 | the connector loop, skipping connectors without a link, builds exactly the graph of the links it keeps |
| ConnectorLineage.GraphOfStep | XMLify/connector_based_lineage.py:59-91 | one more connector adds its link to the graph, or leaves the graph unchanged when it is skipped |
| ConnectorLineage.BuildLineageGraph | XMLify/connector_based_lineage.py:46-93 | the name is `@NAME` or `Unknown`, and the graph is the one the usable connectors give |
| ConnectorLineage.Nodes | XMLify/connector_based_lineage.py:108-114 | the node names of a lineage, one per entry and in order |
| ConnectorLineage.PathPrepend | XMLify/connector_based_lineage.py:115-116 | an edge followed by a path is a path |
| ConnectorLineage.ClosedBack | XMLify/connector_based_lineage.py:115-116 | a set closed under predecessors holds the start of every path that ends in it |
| ConnectorLineage.Enter | XMLify/connector_based_lineage.py:101-114 | visiting a new node that leads to the target keeps the search state, adding its entry when it has attributes |
| ConnectorLineage.Leave | XMLify/connector_based_lineage.py:115-116 | a node whose predecessors are all visited may leave the running calls |
| ConnectorLineage.Dfs | XMLify/connector_based_lineage.py:100-116 | `dfs` keeps the search state (visited nodes lead to the target, finished nodes have visited predecessors, the lineage lists each visited attributed node once), only grows the visited set, visits its node and keeps the first entry |
| ConnectorLineage.Descend | XMLify/connector_based_lineage.py:115-116 | a predecessor of a node on the way to the target is a node that leads there too, and the recursion's measure drops |
| ConnectorLineage.DfsPreds | XMLify/connector_based_lineage.py:115-116 | the predecessor loop visits every predecessor and keeps the search state |
| ConnectorLineage.Covered | XMLify/connector_based_lineage.py:115-116 | visited elements stay visited as the set grows |
| ConnectorLineage.DfsPred | XMLify/connector_based_lineage.py:116 | one `dfs(u)` for a predecessor `u` visits `u` and keeps the search state |
| ConnectorLineage.PathStartsAtNode | XMLify/connector_based_lineage.py:115-116 | a node that leads to a node of the graph is itself a node |
| ConnectorLineage.TraceLineage | XMLify/connector_based_lineage.py:95-119 | the trace lists, without repeats and with their attributes, exactly the nodes from which the target can be reached, and ends with the target |
| ConnectorLineage.SearchDone | XMLify/connector_based_lineage.py:118 | once the search from the target returns, the lineage's nodes are exactly those that reach the target |
| ConnectorLineage.ReversedNodes | XMLify/connector_based_lineage.py:119 | reversing keeps the node set and distinctness, and moves the first entry to the end |
| ConnectorLineage.TargetNodes | XMLify/connector_based_lineage.py:126 | exactly the graph's nodes in the `target` category |
| ConnectorLineage.TraceTargets | XMLify/connector_based_lineage.py:129-138 | one entry per target, each naming the mapping, the target's field and instance, and holding that target's trace |
| ConnectorLineage.MappingLineage | XMLify/connector_based_lineage.py:125-138 | the entries of one mapping are one per target node of its graph, each with its trace |
| ConnectorLineage.GenerateFrom | XMLify/connector_based_lineage.py:121-141 | an error from the search is re-raised with nothing recorded; otherwise the mapping's entries are appended to what was recorded |
| ConnectorLineage.PowerCenterLineage.constructor | XMLify/connector_based_lineage.py:11-14 | holds the document and mapping name, with no lineage yet |
| ConnectorLineage.PowerCenterLineage.ExtractMapping | XMLify/connector_based_lineage.py:25-44 | gives exactly `ExtractOf` of the held document and name |
| ConnectorLineage.PowerCenterLineage.GenerateLineage | XMLify/connector_based_lineage.py:121-141 | document and name unchanged; the lineage grows by the mapping's per-target entries, or an error is returned with nothing recorded |

## Left out

- File, JSON, YAML, CSV and XML loading and writing (including the `utf-8-sig` decoding) are not modelled. Every operation takes the already-parsed document as a `Json.Value` or a sequence of rows.
- `print`, logging, argparse and every `__main__` block are left out, because they produce only output.
- `_save_to_csv`, `save_to_csv`, `export_to_csv`, `export_lineage`, `get_dataframe`, `print_summary` and `debug_structure` are left out, because they only render or write data.
- `main_validate` is left out, because it loads the schema file and imports other modules. `SchemaValidate` models the two functions it calls.
- `generate_complete_lineage` (`XMLify/fixed_lineage_maker.py:399-438`) is left out. It loops over targets and prints. The model covers the `trace_lineage` and `get_target_fields` that it calls.
- The module-level file loads and writes of `sql_gens/sql_gen.py` (lines 6-11 and 63-69) are left out. `generate_insert_statements` takes the payload and mapping as parameters.
- The spreadsheet exporters, the S3 and redaction scripts, the S3 processor, the XLSX converter and the expression text file are not part of this model. The declarations-only dataclass file is not part of it either.
- The networkx library itself is not modelled. `Digraph` restates the calls used, over a node sequence and an edge sequence.
- Python's set iteration order cannot be reproduced, so the model fixes an order:
  - weak components, strong components and subgraph node views follow the graph's node insertion order;
  - the topological sort repeatedly takes the first remaining node with no remaining predecessor;
  - the `remaining_nodes` of `_identify_parallel_groups` (`XMLify/excel_export/new_style.py:354`) are iterated in the order of the level's `nodes` list, that is, the order in which the walk levelled them. The source iterates `set(nodes)` instead;
  - the ties of `max(scc, key=...)` and `min(scc, key=...)` in `_handle_cyclic_graph` (`XMLify/excel_export/new_style.py:323-324`) go to the first such node in the component subgraph's node order (`Levels.FirstMaxOut`, `Levels.FirstMinIn`). The source iterates the set `scc`.
- LogicConn.ConnGraph: adds the nodes in the order in which they first occur as endpoints of the kept edges. The source adds them from the Python set `all_instances` (`XMLify/logical/logic_conn_csv_export.py:318-331`), whose order the model cannot reproduce. The component order, the source list and the breadth-first queue of the order calculation (lines 355-377) follow the node order, and the levels can depend on it. For example, with edges A→C, C→E, B→D, D→C, the sources in the order [A, B] give E the order 3, and [B, A] give it 4. `LogicConn.ConnOrdersAt` and `LogicConn.ComponentOrders` are stated relative to the model's fixed order.
- The `except Exception` fallback that numbers every instance in turn (`XMLify/excel_export/new_style.py:196-202`) is left out, because no step of the modelled ordering can raise there. The same holds for the `except nx.NetworkXError` fallback and the outer `except Exception` of the older exporter (`XMLify/logical/logic_conn_csv_export.py:383-392`).
- The "add remaining nodes individually" branch of `_identify_parallel_groups` (`XMLify/excel_export/new_style.py:379-384`) is left out. It is unreachable, because every round takes at least its first node. `ParallelGroups.Round` proves that.
- `str()` of floats, lists and dicts is not modelled. `Json.Stringify` renders strings, integers, booleans and `None` as Python does, and gives a fixed placeholder for the other values.
- Text.Upper: maps only the ASCII letters `a`-`z`. Python's `str.upper` also maps non-ASCII letters (for example `ß` to `SS`).
- Text.Lower: maps only the ASCII letters `A`-`Z`. Python's `str.lower` also maps non-ASCII letters.
- Text.Strip: removes exactly Python's whitespace characters (`str.isspace`) at both ends, including the non-ASCII ones, as `strip()` does.
- Text.ParseInt: accepts only the ASCII digits `0`-`9`. Python's `int()` also accepts any other Unicode decimal digit (for example Arabic-Indic digits). Such text is an error in the model.
- Json.StrAt: an attribute whose value is not a string is an error in the model. The source would carry the value on as it is. xmltodict renders every XML attribute as a string, so only a document built otherwise has such a value.
- Json.StrOr: the same for an attribute read with a default.
- FieldModel.TransformationOf: reads its attributes through `Json.StrAt`/`Json.StrOr`, so a non-string attribute value is an error in the model, which the source lacks.
- FieldModel.FieldOf: reads its attributes through `Json.StrAt`/`Json.StrOr`, so a non-string attribute value is an error in the model, which the source lacks.
- FieldModel.AttributeOf: reads its attributes through `Json.StrAt`/`Json.StrOr`, so a non-string attribute value is an error in the model, which the source lacks.
- FieldModel.InstanceOf: reads its attributes through `Json.StrAt`/`Json.StrOr`, so a non-string attribute value is an error in the model, which the source lacks.
- FieldModel.ConnectionOf: reads its attributes through `Json.StrAt`/`Json.StrOr`, so a non-string attribute value is an error in the model, which the source lacks.
- FieldModel.LoadOrderOf: reads `@TARGETINSTANCE` through `Json.StrAt`, so a non-string value counts as a raise and ends the load-order loop. The source would store it.
- SqlGen.Mapping: takes the YAML mapping already split into three field lists, each field with a string `json_path`. Two failures of the source (`sql_gens/sql_gen.py:17`, `31`, `50`) are not modelled: the `KeyError` for a missing `DMV_POLICY`, `DMV_VEHICLE`, `DMV_DRIVER`, `fields` or `json_path` key, and the `AttributeError` that `.replace` raises for a non-string `json_path`.
- ConnectorLineage.Dfs: recursion is unbounded in the model. The source's `dfs` raises `RecursionError` on a predecessor chain longer than Python's recursion limit (1000 frames by default).
- SqlGen.RegistrantMapKeys: keys the registrant map by the parsed `registrantId` values, which are told apart by value and type. Python's dict identifies `1`, `1.0` and `True`, so the source merges registrants whose ids differ only that way. The model keeps them apart.
- LogicConn.ConnEndSpec: states that an instance name that is a number or a boolean is an error. The older exporter uses such a name as a graph node as it is. Parsed attribute values are strings, so the model does not carry other names.
- NewStyle.CalculateComplexOrder: computes the corrected ordering of the "## Findings" row, not the source as written. The two differ only on a component with a cycle. There the source levels breadth-first from the sources, and the model runs the cycle breaker. `Ordering.ComplexOrderAsWritten` proves they agree on every component that has a topological order.
- NewStyle.WalkSub: on a component with a cycle it returns the cycle breaker's order, as the corrected ordering of the "## Findings" row does. As written, `topological_sort` raises there and the breadth-first fallback runs instead.
- Ordering.ComponentAssignment: gives a component of two or more nodes the corrected ordering. It differs from the source only on a cyclic component, as for `NewStyle.CalculateComplexOrder`.
- NewStyle.CalculateComponentOrder: the same corrected ordering, one component at a time.
- Ordering.AssignComponentsAt: builds on `Ordering.ComponentAssignment`. On a mapping with a cyclic component it promises the corrected orders and groups, not the source's.
- Ordering.TransformationOrderAt: builds on `Ordering.ComponentAssignment`. On a mapping with a cyclic component it promises the corrected orders and groups, not the source's.
- Ordering.TransformationOrder: builds on `Ordering.ComponentAssignment`. On a mapping with a cyclic component it promises the corrected orders and groups, not the source's.
- NewStyle.MergeKeys: builds on `Ordering.ComponentAssignment`. On a mapping with a cyclic component it promises the corrected orders and groups, not the source's.
- NewStyle.AssignAllComponents: builds on `Ordering.ComponentAssignment`. On a mapping with a cyclic component it promises the corrected orders and groups, not the source's.
- NewStyle.InfaLineageGenerator.CalculateTransformationOrder: holds the corrected orders and groups, which differ from the source's only on a cyclic component.
- NewStyle.InfaLineageGenerator.OrderAndProcess: holds the corrected orders and groups, which differ from the source's only on a cyclic component.
- NewStyle.InfaLineageGenerator.Run: holds the corrected orders and groups, which differ from the source's only on a cyclic component.
- NewStyle.GenerateStages: holds the corrected orders and groups, which differ from the source's only on a cyclic component.
- NewStyle.NewGenerator: holds the corrected orders and groups, which differ from the source's only on a cyclic component.
- NewStyle.TransformationOrderKeys: "every graph node gets exactly one order and one group" holds for the corrected ordering. As written, a node of a cyclic component that no source reaches gets neither (`Ordering.CycleSkipsBreaker`, `Ordering.AsWrittenUnreached`).
- NewStyle.OrdersAreGraphNodes: "every graph node has an order" holds for the corrected ordering. As written, a node of a cyclic component that no source reaches gets no order (`Ordering.AsWrittenUnreached`).
- `FieldLineage.LineageFramework.TraceLineage` keys visits with the same `instance.field.depth` string the source builds. Two distinct pairs whose dotted names collide are therefore treated as one visit, exactly as in the source. The completeness clause of `TraceResult` (`FieldLineage.TraceComplete`) is therefore stated only for mappings whose instance names hold no `.`. When names collide, the source may skip a branch, and the model promises only that the colliding key was expanded.

## Findings

| source | as written | input that shows it | evidently intended | confidence | as-written member | corrected member |
|---|---|---|---|---|---|---|
| XMLify/excel_export/new_style.py:289-293 | `_calculate_longest_path_levels` catches `nx.NetworkXError`. On a cycle, `topological_sort` raises `NetworkXUnfeasible`, which that clause does not catch. The exception reaches the `except Exception` breadth-first fallback of `_calculate_complex_order` (lines 256-277), so `_handle_cyclic_graph` is never used. | the component with edges A→B, B→A, A→C, D→C: its only source D reaches C alone, so A and B get no order | a cyclic component goes through the cycle breaker, and every node gets an order | not executed | `Ordering.ComplexOrderAsWritten`, `Ordering.CycleSkipsBreaker`, `Ordering.AsWrittenUnreached` | `Ordering.ComplexOrder`, `Ordering.ComplexOrderCovers`, `Ordering.CycleUsesBreaker` |
