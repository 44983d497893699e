/** The type-dispatched logic extractor shared by `InfaLineageGenerator`
    (XMLify/excel_export/new_style.py) and `InformaticaMappingExtractor`
    (XMLify/logical/logic_conn_csv_export.py): the human-readable text that
    describes what one transformation does. The two differ only in the
    Source Qualifier branch, which the second lacks. */
module Logic {
  import opened Wrappers
  import opened Text
  import opened Json

  /** The branch the upper-cased transformation type selects. */
  datatype Kind = ExpressionKind | FilterKind | LookupKind | AggregatorKind | SorterKind
                | SourceQualifierKind | OtherKind

  /** Which of the two extractors: `withSourceQualifier` is the one in
      new_style.py. */
  function KindOf(ttype: string, withSourceQualifier: bool): (k: Kind)
    ensures k == SourceQualifierKind ==> withSourceQualifier
  {
    var u := Upper(ttype);
    if u == "EXPRESSION" || u == "EXPRESSION TRANSFORMATION" then ExpressionKind
    else if u == "FILTER" || u == "FILTER TRANSFORMATION" then FilterKind
    else if u == "LOOKUP" || u == "LOOKUP TRANSFORMATION" then LookupKind
    else if u == "AGGREGATOR" || u == "AGGREGATOR TRANSFORMATION" then AggregatorKind
    else if u == "SORTER" || u == "SORTER TRANSFORMATION" then SorterKind
    else if withSourceQualifier && u == "SOURCE QUALIFIER" then SourceQualifierKind
    else OtherKind
  }

  /** Case-insensitive dispatch: types that agree after upper-casing take
      the same branch. */
  lemma KindCaseInsensitive(a: string, b: string, withSourceQualifier: bool)
    requires Upper(a) == Upper(b)
    ensures KindOf(a, withSourceQualifier) == KindOf(b, withSourceQualifier)
  {
  }

  // ---------------------------------------------------------------- collecting parts

  /** The parts a loop over `xs` appends, when `part` says for each element
      whether and what it appends; the first element whose test raises makes
      the whole loop raise. */
  function Collect(xs: seq<Value>, part: Value -> Result<Option<string>, string>): (r: Result<seq<string>, string>)
    ensures r.Ok? <==> forall i | 0 <= i < |xs| :: part(xs[i]).Ok?
    ensures r.Ok? ==> |r.value| <= |xs|
    ensures r.Ok? ==> forall p :: p in r.value <==> exists i | 0 <= i < |xs| :: part(xs[i]) == Ok(Some(p))
  {
    if |xs| == 0 then Ok([])
    else
      var pre := xs[..|xs| - 1];
      var x := xs[|xs| - 1];
      assert forall i | 0 <= i < |pre| :: pre[i] == xs[i];
      match Collect(pre, part)
      case Err(e) => Err(e)
      case Ok(ps) =>
        match part(x)
        case Err(e) => Err(e)
        case Ok(None) => Ok(ps)
        case Ok(Some(p)) => Ok(ps + [p])
  }

  /** A loop that appends only non-empty parts yields only non-empty parts. */
  lemma {:induction false} CollectNonEmpty(xs: seq<Value>, part: Value -> Result<Option<string>, string>)
    requires forall x, p | part(x) == Ok(Some(p)) :: |p| > 0
    requires Collect(xs, part).Ok?
    ensures forall p | p in Collect(xs, part).value :: |p| > 0
  {
  }

  // ---------------------------------------------------------------- one element

  const SkipAttrs: seq<string> := ["version", "creation_date", "modified_date", "uuid", "description"]

  /** `any(skip in name for skip in skip_attrs)`. */
  predicate Skipped(lowerName: string) {
    exists i | 0 <= i < |SkipAttrs| :: Contains(lowerName, SkipAttrs[i])
  }

  /** Expression branch: `<name> = <expression>` for a non-blank expression. */
  function ExpressionPart(f: Value): (r: Result<Option<string>, string>)
    ensures r.Ok? && r.value.Some? ==> |r.value.value| > 0
    ensures r.Ok? <==> f.Dict? && NonBlank(PyGet2(f, "@EXPRESSION", "EXPRESSION").value).Ok?
    ensures r.Ok? && r.value.Some? ==> NonBlank(PyGet2(f, "@EXPRESSION", "EXPRESSION").value) == Ok(true)
  {
    match PyGet2(f, "@NAME", "NAME")
    case Err(e) => Err(e)
    case Ok(name) =>
      var expr := PyGet2(f, "@EXPRESSION", "EXPRESSION").value;
      match NonBlank(expr)
      case Err(e) => Err(e)
      case Ok(b) => Ok(if b then Some(Stringify(name) + " = " + Stringify(expr)) else None)
  }

  /** Aggregator branch: `GROUP BY: <name>` for a group-by field, otherwise
      the expression part. */
  function AggregatorPart(f: Value): (r: Result<Option<string>, string>)
    ensures r.Ok? && r.value.Some? ==> |r.value.value| > 0
    ensures f.Dict? && PyGet2(f, "@GROUPBY", "GROUPBY") == Ok(Str("YES")) ==>
              r == Ok(Some("GROUP BY: " + Stringify(PyGet2(f, "@NAME", "NAME").value)))
    ensures f.Dict? && PyGet2(f, "@GROUPBY", "GROUPBY") != Ok(Str("YES")) ==> r == ExpressionPart(f)
    ensures !f.Dict? ==> r.Err?
  {
    match PyGet2(f, "@NAME", "NAME")
    case Err(e) => Err(e)
    case Ok(name) =>
      var expr := PyGet2(f, "@EXPRESSION", "EXPRESSION").value;
      var groupBy := PyGet2(f, "@GROUPBY", "GROUPBY").value;
      if groupBy == Str("YES") then Ok(Some("GROUP BY: " + Stringify(name)))
      else
        match NonBlank(expr)
        case Err(e) => Err(e)
        case Ok(b) => Ok(if b then Some(Stringify(name) + " = " + Stringify(expr)) else None)
  }

  /** Sorter branch: `SORT BY: <name>` for a sort-key field. */
  function SorterPart(f: Value): (r: Result<Option<string>, string>)
    ensures r.Ok? && r.value.Some? ==> |r.value.value| > 0
    ensures r.Ok? <==> f.Dict?
    ensures r.Ok? ==> (r.value.Some? <==> PyGet2(f, "@SORTKEY", "SORTKEY").value == Str("YES"))
  {
    match PyGet2(f, "@NAME", "NAME")
    case Err(e) => Err(e)
    case Ok(name) =>
      if PyGet2(f, "@SORTKEY", "SORTKEY").value == Str("YES") then Ok(Some("SORT BY: " + Stringify(name)))
      else Ok(None)
  }

  /** Default branch, fields: `Field: <name>` for a truthy name. */
  function FieldPart(f: Value): (r: Result<Option<string>, string>)
    ensures r.Ok? && r.value.Some? ==> |r.value.value| > 0
    ensures r.Ok? <==> f.Dict?
    ensures r.Ok? ==> (r.value.Some? <==> Truthy(PyGet2(f, "@NAME", "NAME").value))
  {
    match PyGet2(f, "@NAME", "NAME")
    case Err(e) => Err(e)
    case Ok(name) => Ok(if Truthy(name) then Some("Field: " + Stringify(name)) else None)
  }

  /** Source Qualifier and default branches, table attributes:
      `<name>: <value>` for a truthy name and a non-blank value, unless the
      lower-cased name contains a skip-list word. */
  function AttributePart(a: Value): (r: Result<Option<string>, string>)
    ensures r.Ok? && r.value.Some? ==> |r.value.value| > 0
    ensures r.Ok? ==> a.Dict?
    ensures r.Ok? && r.value.Some? ==>
              var name := PyGet2(a, "@NAME", "NAME").value;
              name.Str? && |name.s| > 0 && !Skipped(Lower(name.s))
              && NonBlank(PyGet2(a, "@VALUE", "VALUE").value) == Ok(true)
    ensures (a.Dict? && PyGet2(a, "@NAME", "NAME").value.Str?
             && Skipped(Lower(PyGet2(a, "@NAME", "NAME").value.s))
             && NonBlank(PyGet2(a, "@VALUE", "VALUE").value).Ok?) ==> r == Ok(None)
  {
    match PyGet2(a, "@NAME", "NAME")
    case Err(e) => Err(e)
    case Ok(name) =>
      var value := PyGet2(a, "@VALUE", "VALUE").value;
      if !Truthy(name) then Ok(None)
      else
        match NonBlank(value)
        case Err(e) => Err(e)
        case Ok(false) => Ok(None)
        case Ok(true) =>
          match PyLower(name)
          case Err(e) => Err(e)
          case Ok(lower) =>
            if Skipped(lower) then Ok(None) else Ok(Some(Stringify(name) + ": " + Stringify(value)))
  }

  // ---------------------------------------------------------------- the filter condition

  /** The filter search over the table attributes: the value of the first
      attribute whose truthy name contains `filter` (lower-cased) and whose
      value is truthy; the loop stops there, so later attributes are never
      looked at. */
  function FilterAttribute(attrs: seq<Value>): (r: Result<Option<Value>, string>)
    ensures r.Ok? && r.value.Some? ==> Truthy(r.value.value)
    ensures r.Ok? && r.value.Some? ==> exists i | 0 <= i < |attrs| :: PyGet2(attrs[i], "@VALUE", "VALUE") == Ok(r.value.value)
    decreases |attrs|
  {
    if |attrs| == 0 then Ok(None)
    else
      var a := attrs[0];
      match PyGet2(a, "@NAME", "NAME")
      case Err(e) => Err(e)
      case Ok(name) =>
        var hit: Result<bool, string> :=
          if !Truthy(name) then Ok(false)
          else match PyLower(name)
            case Err(e) => Err(e)
            case Ok(lower) => Ok(Contains(lower, "filter"));
        match hit
        case Err(e) => Err(e)
        case Ok(h) =>
          var value := PyGet2(a, "@VALUE", "VALUE").value;
          if h && Truthy(value) then Ok(Some(value))
          else
            var r := FilterAttribute(attrs[1..]);
            assert forall i | 1 <= i < |attrs| :: attrs[1..][i - 1] == attrs[i];
            r
  }

  // ---------------------------------------------------------------- one transformation

  /** A loop over the elements of `v`. */
  function LoopParts(v: Value, part: Value -> Result<Option<string>, string>): (r: Result<seq<string>, string>) {
    match ElementsOf(v)
    case Err(e) => Err(e)
    case Ok(xs) => Collect(xs, part)
  }

  /** The Filter branch: the direct condition, or, when it is falsy, the
      first filter attribute. */
  function FilterParts(t: Value): (r: Result<seq<string>, string>)
    requires t.Dict?
  {
    var direct := GetOr(t, "@FILTERCONDITION", GetOr(t, "FILTERCONDITION", Str("")));
    var found: Result<Option<Value>, string> :=
      if Truthy(direct) then Ok(Some(direct))
      else match ElementsOf(GetOr(t, "TABLEATTRIBUTE", List([])))
        case Err(e) => Err(e)
        case Ok(attrs) => FilterAttribute(attrs);
    match found
    case Err(e) => Err(e)
    case Ok(None) => Ok([])
    case Ok(Some(c)) => Ok(["Filter: " + Stringify(c)])
  }

  /** The Lookup branch. */
  function LookupParts(t: Value): (r: seq<string>)
    requires t.Dict?
  {
    var c := GetOr(t, "@CONDITION", GetOr(t, "CONDITION", Str("")));
    if Truthy(c) then ["Lookup: " + Stringify(c)] else []
  }

  /** The default branch: field names, then the table attributes. */
  function OtherParts(t: Value): (r: Result<seq<string>, string>)
    requires t.Dict?
  {
    match LoopParts(GetOr(t, "TRANSFORMFIELD", List([])), FieldPart)
    case Err(e) => Err(e)
    case Ok(ps) =>
      match LoopParts(GetOr(t, "TABLEATTRIBUTE", List([])), AttributePart)
      case Err(e) => Err(e)
      case Ok(qs) => Ok(ps + qs)
  }

  /** The `logic_parts` of `_extract_logic_by_type` for transformation `t`
      in the branch `kind`; a transformation that is not a dict raises. */
  function LogicParts(t: Value, kind: Kind): (r: Result<seq<string>, string>)
    ensures r.Ok? ==> t.Dict?
  {
    if !t.Dict? then Err(WrongShape)
    else
      var fieldsValue := GetOr(t, "TRANSFORMFIELD", List([]));
      match kind
      case ExpressionKind => LoopParts(fieldsValue, ExpressionPart)
      case AggregatorKind => LoopParts(fieldsValue, AggregatorPart)
      case SorterKind => LoopParts(fieldsValue, SorterPart)
      case FilterKind => FilterParts(t)
      case LookupKind => Ok(LookupParts(t))
      case SourceQualifierKind => LoopParts(GetOr(t, "TABLEATTRIBUTE", List([])), AttributePart)
      case OtherKind => OtherParts(t)
  }

  /** `_extract_logic_by_type`: the parts joined by `; `, or
      `<type> transformation` when there are none. */
  function ExtractLogic(t: Value, ttype: string, withSourceQualifier: bool): (r: Result<string, string>)
    ensures r.Ok? <==> LogicParts(t, KindOf(ttype, withSourceQualifier)).Ok?
  {
    match LogicParts(t, KindOf(ttype, withSourceQualifier))
    case Err(e) => Err(e)
    case Ok(ps) => Ok(if |ps| > 0 then Join("; ", ps) else ttype + " transformation")
  }

  /** A loop whose element parts are never empty yields no empty part. */
  lemma LoopPartsNonEmpty(v: Value, part: Value -> Result<Option<string>, string>)
    requires forall x, p | part(x) == Ok(Some(p)) :: |p| > 0
    requires LoopParts(v, part).Ok?
    ensures forall p | p in LoopParts(v, part).value :: |p| > 0
  {
    CollectNonEmpty(ElementsOf(v).value, part);
  }

  lemma PartsNonEmpty(t: Value, kind: Kind)
    requires LogicParts(t, kind).Ok?
    ensures forall p | p in LogicParts(t, kind).value :: |p| > 0
  {
    var fieldsValue := GetOr(t, "TRANSFORMFIELD", List([]));
    var attrsValue := GetOr(t, "TABLEATTRIBUTE", List([]));
    match kind
    case ExpressionKind => LoopPartsNonEmpty(fieldsValue, ExpressionPart);
    case AggregatorKind => LoopPartsNonEmpty(fieldsValue, AggregatorPart);
    case SorterKind => LoopPartsNonEmpty(fieldsValue, SorterPart);
    case FilterKind =>
    case LookupKind =>
    case SourceQualifierKind => LoopPartsNonEmpty(attrsValue, AttributePart);
    case OtherKind =>
      LoopPartsNonEmpty(fieldsValue, FieldPart);
      LoopPartsNonEmpty(attrsValue, AttributePart);
  }

  /** The logic text is never empty: either the joined parts, none of which
      is empty, or the fallback naming the type. */
  lemma ExtractLogicNonEmpty(t: Value, ttype: string, withSourceQualifier: bool)
    requires ExtractLogic(t, ttype, withSourceQualifier).Ok?
    ensures |ExtractLogic(t, ttype, withSourceQualifier).value| > 0
    ensures var ps := LogicParts(t, KindOf(ttype, withSourceQualifier)).value;
      ExtractLogic(t, ttype, withSourceQualifier).value == ttype + " transformation" <== |ps| == 0
  {
    var ps := LogicParts(t, KindOf(ttype, withSourceQualifier)).value;
    if |ps| > 0 {
      PartsNonEmpty(t, KindOf(ttype, withSourceQualifier));
      assert ps[0] in ps;
      JoinNonEmpty("; ", ps);
    }
  }

  /** An Aggregator field marked `GROUPBY` = `YES` contributes its
      `GROUP BY` line, in place of any expression. */
  lemma AggregatorGroupBy(t: Value, ttype: string, withSourceQualifier: bool, f: Value)
    requires KindOf(ttype, withSourceQualifier) == AggregatorKind
    requires LogicParts(t, KindOf(ttype, withSourceQualifier)).Ok?
    requires ElementsOf(GetOr(t, "TRANSFORMFIELD", List([]))).Ok? && f in ElementsOf(GetOr(t, "TRANSFORMFIELD", List([]))).value
    requires f.Dict? && PyGet2(f, "@GROUPBY", "GROUPBY") == Ok(Str("YES"))
    ensures "GROUP BY: " + Stringify(PyGet2(f, "@NAME", "NAME").value) in LogicParts(t, KindOf(ttype, withSourceQualifier)).value
  {
    var fs := ElementsOf(GetOr(t, "TRANSFORMFIELD", List([]))).value;
    var i :| 0 <= i < |fs| && fs[i] == f;
    assert AggregatorPart(fs[i]) == Ok(Some("GROUP BY: " + Stringify(PyGet2(f, "@NAME", "NAME").value)));
  }

  /** No attribute whose lower-cased name contains a skip-list word reaches
      the logic text of a Source Qualifier. */
  lemma SkippedAttributesDropped(t: Value, ttype: string, p: string)
    requires KindOf(ttype, true) == SourceQualifierKind
    requires LogicParts(t, KindOf(ttype, true)).Ok? && p in LogicParts(t, KindOf(ttype, true)).value
    ensures exists a :: AttributePart(a) == Ok(Some(p))
              && PyGet2(a, "@NAME", "NAME").value.Str?
              && !Skipped(Lower(PyGet2(a, "@NAME", "NAME").value.s))
  {
    var attrs := ElementsOf(GetOr(t, "TABLEATTRIBUTE", List([]))).value;
    var i :| 0 <= i < |attrs| && AttributePart(attrs[i]) == Ok(Some(p));
  }

  /** Without its Source Qualifier branch (logic_conn_csv_export.py) a
      Source Qualifier takes the default branch: its fields' names and its
      attributes. */
  lemma SourceQualifierWithoutBranch(ttype: string)
    requires Upper(ttype) == "SOURCE QUALIFIER"
    ensures KindOf(ttype, true) == SourceQualifierKind
    ensures KindOf(ttype, false) == OtherKind
  {
  }

  // ---------------------------------------------------------------- the loops

  /** The `for field in transform_fields` / `for attr in table_attributes`
      loops, appending to `logic_parts`. */
  method CollectParts(xs: seq<Value>, part: Value -> Result<Option<string>, string>, logicParts: seq<string>)
    returns (r: Result<seq<string>, string>)
    ensures r == (match Collect(xs, part) case Err(e) => Err(e) case Ok(ps) => Ok(logicParts + ps))
  {
    var parts := logicParts;
    var i := 0;
    while i < |xs|
      invariant 0 <= i <= |xs|
      invariant Collect(xs[..i], part).Ok? && parts == logicParts + Collect(xs[..i], part).value
    {
      assert xs[..i + 1][..i] == xs[..i];
      var p := part(xs[i]);
      if p.Err? {
        CollectErr(xs, part, i + 1);
        return Err(p.error);
      }
      if p.value.Some? {
        parts := parts + [p.value.value];
      }
      i := i + 1;
    }
    assert xs[..i] == xs;
    return Ok(parts);
  }

  /** A prefix that raises makes the whole loop raise with the same error. */
  lemma {:induction false} CollectErr(xs: seq<Value>, part: Value -> Result<Option<string>, string>, k: nat)
    requires k <= |xs| && Collect(xs[..k], part).Err?
    ensures Collect(xs, part) == Collect(xs[..k], part)
    decreases |xs| - k
  {
    if k < |xs| {
      assert xs[..k + 1][..k] == xs[..k];
      CollectErr(xs, part, k + 1);
    } else {
      assert xs[..k] == xs;
    }
  }

  /** The `for attr in table_attributes` search of the Filter branch, which
      breaks at the first attribute with a filter name and a truthy value. */
  method FindFilterCondition(attrs: seq<Value>) returns (r: Result<Option<Value>, string>)
    ensures r == FilterAttribute(attrs)
  {
    var i := 0;
    while i < |attrs|
      invariant 0 <= i <= |attrs|
      invariant FilterAttribute(attrs[i..]) == FilterAttribute(attrs)
    {
      assert attrs[i..][1..] == attrs[i + 1..];
      var a := attrs[i];
      var name := PyGet2(a, "@NAME", "NAME");
      if name.Err? {
        return Err(name.error);
      }
      if Truthy(name.value) {
        var lower := PyLower(name.value);
        if lower.Err? {
          return Err(lower.error);
        }
        if Contains(lower.value, "filter") {
          var value := PyGet2(a, "@VALUE", "VALUE").value;
          if Truthy(value) {
            return Ok(Some(value));
          }
        }
      }
      i := i + 1;
    }
    return Ok(None);
  }

  /** A `for` loop over the elements of `v` appending to `logicParts`. */
  method LoopOver(v: Value, part: Value -> Result<Option<string>, string>, logicParts: seq<string>)
    returns (r: Result<seq<string>, string>)
    ensures r == (match LoopParts(v, part) case Err(e) => Err(e) case Ok(ps) => Ok(logicParts + ps))
    ensures logicParts == [] ==> r == LoopParts(v, part)
  {
    var xs := ElementsOf(v);
    if xs.Err? {
      return Err(xs.error);
    }
    r := CollectParts(xs.value, part, logicParts);
    if r.Ok? {
      assert logicParts == [] ==> r.value == LoopParts(v, part).value;
    }
  }

  /** The Filter branch as a statement sequence. */
  method FilterBranch(t: Value) returns (r: Result<seq<string>, string>)
    requires t.Dict?
    ensures r == FilterParts(t)
  {
    var condition := GetOr(t, "@FILTERCONDITION", GetOr(t, "FILTERCONDITION", Str("")));
    if !Truthy(condition) {
      var attrs := ElementsOf(GetOr(t, "TABLEATTRIBUTE", List([])));
      if attrs.Err? {
        return Err(attrs.error);
      }
      var found := FindFilterCondition(attrs.value);
      if found.Err? {
        return Err(found.error);
      }
      if found.value.Some? {
        condition := found.value.value;
      }
    }
    if Truthy(condition) {
      return Ok(["Filter: " + Stringify(condition)]);
    }
    return Ok([]);
  }

  /** The branch dispatch of `_extract_logic_by_type`. */
  method BranchParts(t: Value, kind: Kind) returns (parts: Result<seq<string>, string>)
    requires t.Dict?
    ensures parts == LogicParts(t, kind)
  {
    var fieldsValue := GetOr(t, "TRANSFORMFIELD", List([]));
    var attrsValue := GetOr(t, "TABLEATTRIBUTE", List([]));
    match kind {
      case ExpressionKind => parts := LoopOver(fieldsValue, ExpressionPart, []);
      case AggregatorKind => parts := LoopOver(fieldsValue, AggregatorPart, []);
      case SorterKind => parts := LoopOver(fieldsValue, SorterPart, []);
      case FilterKind => parts := FilterBranch(t);
      case LookupKind => parts := Ok(LookupParts(t));
      case SourceQualifierKind => parts := LoopOver(attrsValue, AttributePart, []);
      case OtherKind =>
        parts := LoopOver(fieldsValue, FieldPart, []);
        if parts.Ok? {
          parts := LoopOver(attrsValue, AttributePart, parts.value);
        }
    }
  }

  /** `_extract_logic_by_type`, accumulating `logic_parts` branch by branch. */
  method ExtractLogicByType(t: Value, ttype: string, withSourceQualifier: bool) returns (r: Result<string, string>)
    ensures r == ExtractLogic(t, ttype, withSourceQualifier)
  {
    if !t.Dict? {
      return Err(WrongShape);
    }
    var parts := BranchParts(t, KindOf(ttype, withSourceQualifier));
    if parts.Err? {
      return Err(parts.error);
    }
    var logicParts := parts.value;
    if |logicParts| > 0 {
      return Ok(Join("; ", logicParts));
    }
    return Ok(ttype + " transformation");
  }
}
