/** The payload validator of the DMV loader: the schema is first adjusted
    to the payload's transaction type, then the payload is checked against
    it and every problem found is reported as a message. */
module SchemaValidate {
  import opened Wrappers
  import opened Text
  import opened Json
  import opened Seqs

  // ---------------------------------------------------------------- apply_dynamic_schema_modifications

  /** `input.get("transactionType", "").upper()`; the payload must be a
      dict and the value a string. */
  function TransactionType(input: Value): (r: Result<string, string>)
    ensures r.Ok? <==> input.Dict? && (Has(input, "transactionType") ==> Get(input, "transactionType").value.Str?)
    ensures r.Ok? && !Has(input, "transactionType") ==> r.value == ""
    ensures r.Ok? && Has(input, "transactionType") ==> r.value == Upper(Get(input, "transactionType").value.s)
  {
    match PyGet(input, "transactionType", Str(""))
    case Err(e) => Err(e)
    case Ok(v) => if v.Str? then Ok(Upper(v.s)) else Err(WrongShape)
  }

  function Requiredness(required: bool): (r: string) {
    if required then "required" else "optional"
  }

  /** `if key in schema: schema[key]["isrequired"] = ...`: the entry must
      be a dict to take the assignment. */
  function SetRequired(doc: Value, key: string, required: bool): (r: Result<Value, string>) {
    match Member(doc, key)
    case Err(e) => Err(e)
    case Ok(None) => Ok(doc)
    case Ok(Some(v)) =>
      if !v.Dict? then Err(WrongShape)
      else Ok(Dict(Set(doc.entries, key, Dict(Set(v.entries, "isrequired", Str(Requiredness(required)))))))
  }

  /** The outcome of `apply_dynamic_schema_modifications` and the schema
      it leaves behind: a raise part-way keeps the changes made before it. */
  function Applied(input: Value, doc: Value): (r: (Result<(), string>, Value)) {
    match TransactionType(input)
    case Err(e) => (Err(e), doc)
    case Ok(tt) =>
      match SetRequired(doc, "cancellationReason", tt == "CA")
      case Err(e) => (Err(e), doc)
      case Ok(d1) =>
        match SetRequired(d1, "reinstatementReason", tt == "RI")
        case Err(e) => (Err(e), d1)
        case Ok(d2) => (Ok(()), d2)
  }

  /** A schema entry present in a dict schema ends up marked `required`
      exactly when `required` holds, and nothing else in the schema or in
      that entry changes; an absent entry leaves the schema as it was. */
  lemma SetRequiredSpec(doc: Value, key: string, required: bool)
    requires doc.Dict?
    ensures SetRequired(doc, key, required).Ok? <==> (Has(doc, key) ==> Get(doc, key).value.Dict?)
    ensures !Has(doc, key) ==> SetRequired(doc, key, required) == Ok(doc)
    ensures SetRequired(doc, key, required).Ok? && Has(doc, key) ==>
      var d := SetRequired(doc, key, required).value;
      var old_ := Get(doc, key).value;
      d.Dict? && Has(d, key) && Get(d, key).value.Dict?
      && Get(Get(d, key).value, "isrequired") == Some(Str(Requiredness(required)))
      && (forall k | k != "isrequired" :: Get(Get(d, key).value, k) == Get(old_, k))
      && (forall k | k != key :: Get(d, k) == Get(doc, k))
  {
    if Has(doc, key) && Get(doc, key).value.Dict? {
      var v := Get(doc, key).value;
      SetSpec(v.entries, "isrequired", Str(Requiredness(required)));
      SetSpec(doc.entries, key, Dict(Set(v.entries, "isrequired", Str(Requiredness(required)))));
    }
  }

  /** After a successful run, `cancellationReason` (if present) is
      required exactly when the transaction type is `CA`, and
      `reinstatementReason` (if present) exactly when it is `RI`; every
      other top-level entry is untouched. */
  lemma AppliedSpec(input: Value, doc: Value)
    requires doc.Dict? && Applied(input, doc).0.Ok?
    ensures TransactionType(input).Ok?
    ensures var tt := TransactionType(input).value;
      var d := Applied(input, doc).1;
      d.Dict?
      && (Has(doc, "cancellationReason") ==>
            Has(d, "cancellationReason") && Get(d, "cancellationReason").value.Dict?
            && Get(Get(d, "cancellationReason").value, "isrequired") == Some(Str(Requiredness(tt == "CA"))))
      && (Has(doc, "reinstatementReason") ==>
            Has(d, "reinstatementReason") && Get(d, "reinstatementReason").value.Dict?
            && Get(Get(d, "reinstatementReason").value, "isrequired") == Some(Str(Requiredness(tt == "RI"))))
      && (forall k | k != "cancellationReason" && k != "reinstatementReason" :: Get(d, k) == Get(doc, k))
  {
    var tt := TransactionType(input).value;
    assert "cancellationReason"[0] != "reinstatementReason"[0];
    SetTwice(doc, "cancellationReason", tt == "CA", "reinstatementReason", tt == "RI");
  }

  /** Two different entries marked one after the other. */
  lemma SetTwice(doc: Value, a: string, ra: bool, b: string, rb: bool)
    requires doc.Dict? && a != b
    requires SetRequired(doc, a, ra).Ok? && SetRequired(SetRequired(doc, a, ra).value, b, rb).Ok?
    ensures var d := SetRequired(SetRequired(doc, a, ra).value, b, rb).value;
      d.Dict?
      && (Has(doc, a) ==> Has(d, a) && Get(d, a).value.Dict? && Get(Get(d, a).value, "isrequired") == Some(Str(Requiredness(ra))))
      && (Has(doc, b) ==> Has(d, b) && Get(d, b).value.Dict? && Get(Get(d, b).value, "isrequired") == Some(Str(Requiredness(rb))))
      && (forall k | k != a && k != b :: Get(d, k) == Get(doc, k))
  {
    SetRequiredSpec(doc, a, ra);
    var d1 := SetRequired(doc, a, ra).value;
    assert Get(d1, b) == Get(doc, b);
    SetRequiredSpec(d1, b, rb);
  }

  /** A failed run reports the payload's or the schema's shape, and keeps
      no change when it fails before the first assignment. */
  lemma AppliedErr(input: Value, doc: Value)
    requires Applied(input, doc).0.Err?
    ensures TransactionType(input).Err? ==> Applied(input, doc).1 == doc
    ensures TransactionType(input).Ok? && SetRequired(doc, "cancellationReason", TransactionType(input).value == "CA").Err? ==>
              Applied(input, doc).1 == doc
  {
  }

  /** The loaded schema document, changed in place. */
  class SchemaDoc {
    var doc: Value

    constructor (d: Value)
      ensures doc == d
    {
      doc := d;
    }

    /** `apply_dynamic_schema_modifications`. */
    method ApplyDynamicModifications(input: Value) returns (r: Result<(), string>)
      modifies this
      ensures (r, doc) == Applied(input, old(doc))
    {
      var tt := TransactionType(input);
      if tt.Err? {
        return Err(tt.error);
      }
      var cancel := Member(doc, "cancellationReason");
      if cancel.Err? {
        return Err(cancel.error);
      }
      if cancel.value.Some? {
        var v := cancel.value.value;
        if !v.Dict? {
          return Err(WrongShape);
        }
        doc := Dict(Set(doc.entries, "cancellationReason",
                        Dict(Set(v.entries, "isrequired", Str(Requiredness(tt.value == "CA"))))));
      }
      var reinstate := Member(doc, "reinstatementReason");
      if reinstate.Err? {
        return Err(reinstate.error);
      }
      if reinstate.value.Some? {
        var v := reinstate.value.value;
        if !v.Dict? {
          return Err(WrongShape);
        }
        doc := Dict(Set(doc.entries, "reinstatementReason",
                        Dict(Set(v.entries, "isrequired", Str(Requiredness(tt.value == "RI"))))));
      }
      return Ok(());
    }
  }

  // ---------------------------------------------------------------- validate_schema

  /** The three types a schema can name once lowered, and everything else. */
  datatype Kind = StringKind | NumberKind | ArrayKind | OtherKind

  function KindOf(t: string): (k: Kind)
    ensures k == StringKind <==> t == "string"
    ensures k == NumberKind <==> t == "number"
    ensures k == ArrayKind <==> t == "array"
  {
    if t == "string" then StringKind
    else if t == "number" then NumberKind
    else if t == "array" then ArrayKind
    else OtherKind
  }

  function KindName(k: Kind): (r: string) {
    match k
    case StringKind => "string"
    case NumberKind => "number"
    case ArrayKind => "array"
    case OtherKind => ""
  }

  /** `isinstance(v, str)`, `isinstance(v, (int, float))` (a boolean is an
      `int` in Python) and `isinstance(v, list)`. */
  predicate HasKind(v: Value, k: Kind)
    requires k != OtherKind
  {
    match k
    case StringKind => v.Str?
    case NumberKind => v.Int? || v.Float? || v.Bool?
    case ArrayKind => v.List?
  }

  /** The messages `validate_schema` reports, by the line that reports
      them; `Render` gives their text. */
  datatype Message =
    | Expected(kind: Kind, got: string)
    | Unsupported(t: string)
    | Missing(key: string)
    | NullValue(key: string)
    | Mismatch(key: string, kind: Kind, got: string)
    | NotArray(key: string)
    | UnsupportedFor(t: string, key: string)
    | NotObject(key: string)
    | InArray(key: string, index: nat, inner: Message)

  /** `In array '<key>' item <i>: `. */
  function ItemPrefix(key: string, i: nat): (r: string) {
    "In array '" + key + "' item " + NatToString(i) + ": "
  }

  function Render(m: Message): (r: string) {
    match m
    case Expected(k, got) => "Expected type '" + KindName(k) + "' but got '" + got + "'."
    case Unsupported(t) => "Unsupported type '" + t + "'."
    case Missing(key) => "Required key '" + key + "' is missing."
    case NullValue(key) => "Required key '" + key + "' cannot be null."
    case Mismatch(key, k, got) => "Key '" + key + "' type mismatch: expected '" + KindName(k) + "', got '" + got + "'."
    case NotArray(key) => "Key '" + key + "' should be an array."
    case UnsupportedFor(t, key) => "Unsupported type '" + t + "' for key '" + key + "'."
    case NotObject(key) => "Key '" + key + "' should be an object."
    case InArray(key, i, inner) => ItemPrefix(key, i) + Render(inner)
  }

  /** A schema that describes one value: a dict with a `type` and no keys
      besides `type` and `isrequired`. */
  predicate IsPrimitive(schema: Value) {
    schema.Dict? && Has(schema, "type")
    && forall i | 0 <= i < |schema.entries| :: schema.entries[i].key in {"type", "isrequired"}
  }

  /** The messages about a value checked against a primitive descriptor:
      none when it has the named type, one otherwise; the type must be a
      string to be lowered. */
  function PrimitiveErrors(input: Value, schema: Value): (r: Result<seq<Message>, string>)
    requires IsPrimitive(schema)
    ensures r.Ok? <==> Get(schema, "type").value.Str?
    ensures r.Ok? ==> |r.value| <= 1
    ensures r.Ok? ==>
      var k := KindOf(Lower(Get(schema, "type").value.s));
      (k == OtherKind ==> r.value == [Unsupported(Lower(Get(schema, "type").value.s))])
      && (k != OtherKind ==> (r.value == [] <==> HasKind(input, k)))
  {
    match PyLower(Get(schema, "type").value)
    case Err(e) => Err(e)
    case Ok(t) =>
      var k := KindOf(t);
      if k == OtherKind then Ok([Unsupported(t)])
      else Ok(if HasKind(input, k) then [] else [Expected(k, TypeName(input))])
  }

  /** A key of a schema that names a field rather than describing one. */
  predicate Validated(k: string) {
    k !in {"isrequired", "type", "items"}
  }

  /** `[k for k in schema if k not in ("isrequired", "type", "items")]`. */
  function KeysToValidate(schema: Value): (ks: seq<string>)
    requires schema.Dict?
    ensures forall k | k in ks :: Validated(k) && Has(schema, k)
    ensures forall i | 0 <= i < |schema.entries| && Validated(schema.entries[i].key) :: schema.entries[i].key in ks
  {
    var ks := Where(Keys(schema.entries), Validated);
    assert forall k | k in ks :: k in Keys(schema.entries) && Has(schema, k) by {
      forall k | k in ks ensures Has(schema, k) {
        var i :| 0 <= i < |schema.entries| && Keys(schema.entries)[i] == k;
        assert schema.entries[i].key == k;
      }
    }
    ks
  }

  /** A schema that is not a dict: `for k in schema` raises on values that
      cannot be iterated, and subscripting a string or a list by the items
      it yields raises, except that a list of only the skipped key names is
      never subscripted. */
  function NonDictErrors(schema: Value): (r: Result<seq<Message>, string>)
    requires !schema.Dict?
    ensures r.Ok? ==> r.value == []
  {
    if schema.Str? && |schema.s| == 0 then Ok([])
    else if schema.List? && forall x | x in schema.items :: x.Str? && !Validated(x.s) then Ok([])
    else Err(WrongShape)
  }

  /** `validate_schema(input, schema)`: the messages, or the raise that
      ends the check. */
  function Errors(input: Value, schema: Value): (r: Result<seq<Message>, string>)
    decreases schema, 1, 0
  {
    if IsPrimitive(schema) then PrimitiveErrors(input, schema)
    else if !schema.Dict? then NonDictErrors(schema)
    else KeysErrors(input, schema, KeysToValidate(schema))
  }

  /** The keys checked in order, their messages collected; a raise ends
      the check. */
  function KeysErrors(input: Value, schema: Value, keys: seq<string>): (r: Result<seq<Message>, string>)
    requires schema.Dict? && forall k | k in keys :: Has(schema, k)
    decreases schema, 0, 2
  {
    Gather(KeyResults(input, schema, keys))
  }

  /** What checking each key gives, in order. */
  function KeyResults(input: Value, schema: Value, keys: seq<string>): (rs: seq<Result<seq<Message>, string>>)
    requires schema.Dict? && forall k | k in keys :: Has(schema, k)
    ensures |rs| == |keys| && forall i | 0 <= i < |keys| :: rs[i] == KeyErrors(input, schema, keys[i])
    decreases schema, 0, 1
  {
    seq(|keys|, i requires 0 <= i < |keys| => KeyErrors(input, schema, keys[i]))
  }

  /** `schema[key]`, the first entry with that key. */
  function FieldSchema(schema: Value, key: string): (fs: Value)
    requires schema.Dict? && Has(schema, key)
    ensures Get(schema, key) == Some(fs)
  {
    schema.entries[KeyIndex(schema.entries, key)].value
  }

  /** The messages about one key of the schema. */
  function KeyErrors(input: Value, schema: Value, key: string): (r: Result<seq<Message>, string>)
    requires schema.Dict? && Has(schema, key)
    decreases schema, 0, 0
  {
    FieldErrors(key, FieldSchema(schema, key), Member(input, key))
  }

  /** `field_schema.get("isrequired") == "required"`. */
  predicate Required(fs: Value) {
    Get(fs, "isrequired") == Some(Str("required"))
  }

  /** The messages about a field whose schema is `fs`, given what looking
      the key up in the payload found. */
  function FieldErrors(key: string, fs: Value, found: Result<Option<Value>, string>): (r: Result<seq<Message>, string>)
    decreases fs, 3, 0
  {
    if !fs.Dict? then Err(WrongShape)
    else
      match found
      case Err(e) => Err(e)
      case Ok(None) => Ok(if Required(fs) then [Missing(key)] else [])
      case Ok(Some(v)) =>
        if v.Null? then Ok(if Required(fs) then [NullValue(key)] else [])
        else if Has(fs, "type") then TypedErrors(key, fs, v)
        else if !v.Dict? then Ok([NotObject(key)])
        else Errors(v, fs)
  }

  /** The messages about a present value of a field with a `type`. */
  function TypedErrors(key: string, fs: Value, v: Value): (r: Result<seq<Message>, string>)
    requires fs.Dict? && Has(fs, "type")
    decreases fs, 2, 0
  {
    match PyLower(Get(fs, "type").value)
    case Err(e) => Err(e)
    case Ok(t) =>
      match KindOf(t)
      case OtherKind => Ok([UnsupportedFor(t, key)])
      case ArrayKind =>
        if !v.List? then Ok([NotArray(key)])
        else if Has(fs, "items") && |v.items| > 0 then ItemsErrors(key, v.items, FieldSchema(fs, "items"))
        else Ok([])
      case k => Ok(if HasKind(v, k) then [] else [Mismatch(key, k, TypeName(v))])
  }

  /** The messages about item `i`, wrapped in its position. */
  function InItem(key: string, i: nat, errs: seq<Message>): (r: seq<Message>)
    ensures |r| == |errs| && forall j | 0 <= j < |errs| :: r[j] == InArray(key, i, errs[j])
  {
    seq(|errs|, j requires 0 <= j < |errs| => InArray(key, i, errs[j]))
  }

  /** Each item checked against the `items` schema, its messages wrapped
      in its position; a raise on an item ends the check. */
  function ItemsErrors(key: string, items: seq<Value>, itemSchema: Value): (r: Result<seq<Message>, string>)
    decreases itemSchema, 2, 2
  {
    Gather(ItemResults(key, items, itemSchema))
  }

  /** What checking each item gives, in order. */
  function ItemResults(key: string, items: seq<Value>, itemSchema: Value): (rs: seq<Result<seq<Message>, string>>)
    ensures |rs| == |items|
    ensures forall i | 0 <= i < |items| ::
      rs[i].Ok? == Errors(items[i], itemSchema).Ok?
      && (rs[i].Err? ==> rs[i].error == Errors(items[i], itemSchema).error)
      && (rs[i].Ok? ==> rs[i].value == InItem(key, i, Errors(items[i], itemSchema).value))
    decreases itemSchema, 2, 1
  {
    seq(|items|, i requires 0 <= i < |items| => ItemResult(key, i, Errors(items[i], itemSchema)))
  }

  function ItemResult(key: string, i: nat, found: Result<seq<Message>, string>): (r: Result<seq<Message>, string>) {
    match found
    case Err(e) => Err(e)
    case Ok(errs) => Ok(InItem(key, i, errs))
  }

  /** The text of the messages, as `validate_schema` returns them. */
  function Texts(ms: seq<Message>): (r: seq<string>)
    ensures |r| == |ms| && forall j | 0 <= j < |ms| :: r[j] == Render(ms[j])
  {
    seq(|ms|, j requires 0 <= j < |ms| => Render(ms[j]))
  }

  // ---------------------------------------------------------------- the loops

  /** `validate_schema`, accumulating into `errors` key by key. */
  method ValidateSchema(input: Value, schema: Value) returns (r: Result<seq<Message>, string>)
    ensures r == Errors(input, schema)
    decreases schema, 1, 0
  {
    if IsPrimitive(schema) {
      return PrimitiveErrors(input, schema);
    }
    if !schema.Dict? {
      return NonDictErrors(schema);
    }
    r := ValidateKeys(input, schema, KeysToValidate(schema));
  }

  /** The key loop of `validate_schema`. */
  method ValidateKeys(input: Value, schema: Value, keys: seq<string>) returns (r: Result<seq<Message>, string>)
    requires schema.Dict? && forall k | k in keys :: Has(schema, k)
    ensures r == KeysErrors(input, schema, keys)
    decreases schema, 0, 2
  {
    ghost var rs := KeyResults(input, schema, keys);
    var errors: seq<Message> := [];
    for i := 0 to |keys|
      invariant Gather(rs[..i]) == Ok(errors)
    {
      GatherPrefix(rs, i);
      var more := ValidateKey(input, schema, keys[i]);
      if more.Err? {
        GatherErr(rs, i + 1);
        return Err(more.error);
      }
      errors := errors + more.value;
    }
    assert rs[..|keys|] == rs;
    return Ok(errors);
  }

  /** The body of the key loop. */
  method ValidateKey(input: Value, schema: Value, key: string) returns (r: Result<seq<Message>, string>)
    requires schema.Dict? && Has(schema, key)
    ensures r == KeyErrors(input, schema, key)
    decreases schema, 0, 0
  {
    r := ValidateField(key, FieldSchema(schema, key), Member(input, key));
  }

  /** The checks of one field, given what looking it up found. */
  method ValidateField(key: string, fs: Value, found: Result<Option<Value>, string>) returns (r: Result<seq<Message>, string>)
    ensures r == FieldErrors(key, fs, found)
    decreases fs, 3, 0
  {
    if !fs.Dict? {
      return Err(WrongShape);
    }
    var required := Required(fs);
    if found.Err? {
      return Err(found.error);
    }
    if found.value.None? {
      return Ok(if required then [Missing(key)] else []);
    }
    var v := found.value.value;
    if v.Null? {
      return Ok(if required then [NullValue(key)] else []);
    }
    if Has(fs, "type") {
      r := ValidateTyped(key, fs, v);
    } else if !v.Dict? {
      r := Ok([NotObject(key)]);
    } else {
      r := ValidateSchema(v, fs);
    }
  }

  /** The type checks of a present value of a field with a `type`. */
  method ValidateTyped(key: string, fs: Value, v: Value) returns (r: Result<seq<Message>, string>)
    requires fs.Dict? && Has(fs, "type")
    ensures r == TypedErrors(key, fs, v)
    decreases fs, 2, 0
  {
    var lowered := PyLower(Get(fs, "type").value);
    if lowered.Err? {
      return Err(lowered.error);
    }
    var t := lowered.value;
    var k := KindOf(t);
    if k == OtherKind {
      return Ok([UnsupportedFor(t, key)]);
    } else if k != ArrayKind {
      return Ok(if HasKind(v, k) then [] else [Mismatch(key, k, TypeName(v))]);
    }
    if !v.List? {
      return Ok([NotArray(key)]);
    }
    if !(Has(fs, "items") && |v.items| > 0) {
      return Ok([]);
    }
    r := ValidateItems(key, v.items, FieldSchema(fs, "items"));
  }

  /** `for i, item in enumerate(input_value)`, each item's messages
      appended one by one with its position. */
  method ValidateItems(key: string, items: seq<Value>, itemSchema: Value) returns (r: Result<seq<Message>, string>)
    ensures r == ItemsErrors(key, items, itemSchema)
    decreases itemSchema, 2, 2
  {
    ghost var rs := ItemResults(key, items, itemSchema);
    var errors: seq<Message> := [];
    for i := 0 to |items|
      invariant Gather(rs[..i]) == Ok(errors)
    {
      GatherPrefix(rs, i);
      var itemErrors := ValidateSchema(items[i], itemSchema);
      if itemErrors.Err? {
        GatherErr(rs, i + 1);
        return Err(itemErrors.error);
      }
      errors := AppendItem(errors, key, i, itemErrors.value);
    }
    assert rs[..|items|] == rs;
    return Ok(errors);
  }

  /** The inner loop: each message of one item appended with its prefix. */
  method AppendItem(errors: seq<Message>, key: string, i: nat, errs: seq<Message>) returns (r: seq<Message>)
    ensures r == errors + InItem(key, i, errs)
  {
    r := errors;
    for j := 0 to |errs|
      invariant r == errors + InItem(key, i, errs[..j])
    {
      assert InItem(key, i, errs[..j + 1]) == InItem(key, i, errs[..j]) + [InArray(key, i, errs[j])];
      r := r + [InArray(key, i, errs[j])];
    }
    assert errs[..|errs|] == errs;
  }

  // ---------------------------------------------------------------- properties

  /** A missing key is reported once when required and not at all when
      optional; a null value the same way. */
  lemma MissingAndNull(input: Value, schema: Value, key: string)
    requires schema.Dict? && Has(schema, key) && FieldSchema(schema, key).Dict?
    ensures Member(input, key) == Ok(None) ==>
      KeyErrors(input, schema, key) == Ok(if Required(FieldSchema(schema, key)) then [Missing(key)] else [])
    ensures Member(input, key) == Ok(Some(Null)) ==>
      KeyErrors(input, schema, key) == Ok(if Required(FieldSchema(schema, key)) then [NullValue(key)] else [])
  {
  }

  /** A present value for a field without a `type` must be a dict, and
      then it is checked against the field's schema. */
  lemma NestedObject(input: Value, schema: Value, key: string, v: Value)
    requires schema.Dict? && Has(schema, key) && FieldSchema(schema, key).Dict?
    requires !Has(FieldSchema(schema, key), "type")
    requires Member(input, key) == Ok(Some(v)) && !v.Null?
    ensures !v.Dict? ==> KeyErrors(input, schema, key) == Ok([NotObject(key)])
    ensures v.Dict? ==> KeyErrors(input, schema, key) == Errors(v, FieldSchema(schema, key))
  {
  }

  /** The checks of all keys run: the check raises exactly when some
      key's check does, and then with the first such raise; otherwise the
      result holds every key's messages and no others. */
  lemma KeysErrorsSpec(input: Value, schema: Value, keys: seq<string>)
    requires schema.Dict? && forall k | k in keys :: Has(schema, k)
    ensures KeysErrors(input, schema, keys).Ok? <==> forall i | 0 <= i < |keys| :: KeyErrors(input, schema, keys[i]).Ok?
    ensures KeysErrors(input, schema, keys).Ok? ==>
      (forall i, e | 0 <= i < |keys| && e in KeyErrors(input, schema, keys[i]).value :: e in KeysErrors(input, schema, keys).value)
      && forall e | e in KeysErrors(input, schema, keys).value ::
           exists i | 0 <= i < |keys| :: KeyErrors(input, schema, keys[i]).Ok? && e in KeyErrors(input, schema, keys[i]).value
    ensures KeysErrors(input, schema, keys).Err? ==>
      exists i | 0 <= i < |keys| :: KeysErrors(input, schema, keys) == KeyErrors(input, schema, keys[i])
        && forall j | 0 <= j < i :: KeyErrors(input, schema, keys[j]).Ok?
  {
    GatherSpec(KeyResults(input, schema, keys));
  }

  /** Every message about an array item is wrapped in the key and the
      item's position, and every message of every item is kept; a raise
      on an item is the check's raise. */
  lemma ItemsErrorsSpec(key: string, items: seq<Value>, itemSchema: Value)
    ensures ItemsErrors(key, items, itemSchema).Ok? <==> forall i | 0 <= i < |items| :: Errors(items[i], itemSchema).Ok?
    ensures ItemsErrors(key, items, itemSchema).Ok? ==>
      (forall m | m in ItemsErrors(key, items, itemSchema).value ::
         m.InArray? && m.key == key && m.index < |items| && m.inner in Errors(items[m.index], itemSchema).value)
      && forall i, e | 0 <= i < |items| && e in Errors(items[i], itemSchema).value ::
           InArray(key, i, e) in ItemsErrors(key, items, itemSchema).value
    ensures ItemsErrors(key, items, itemSchema).Err? ==>
      exists i | 0 <= i < |items| :: Errors(items[i], itemSchema).Err?
        && ItemsErrors(key, items, itemSchema).error == Errors(items[i], itemSchema).error
  {
    var rs := ItemResults(key, items, itemSchema);
    GatherSpec(rs);
    if Gather(rs).Ok? {
      forall m: Message | m in Gather(rs).value
        ensures m.InArray? && m.key == key && m.index < |items| && m.inner in Errors(items[m.index], itemSchema).value
      {
        var i :| 0 <= i < |rs| && rs[i].Ok? && m in rs[i].value;
        var j :| 0 <= j < |rs[i].value| && rs[i].value[j] == m;
      }
      forall i, e | 0 <= i < |items| && e in Errors(items[i], itemSchema).value
        ensures InArray(key, i, e) in Gather(rs).value
      {
        var j :| 0 <= j < |Errors(items[i], itemSchema).value| && Errors(items[i], itemSchema).value[j] == e;
        assert rs[i].value[j] == InArray(key, i, e);
      }
    }
  }

  /** The text of a message about an array item starts with the item's
      prefix. */
  lemma InArrayText(key: string, i: nat, inner: Message)
    ensures StartsWith(Render(InArray(key, i, inner)), ItemPrefix(key, i))
  {
    var p := ItemPrefix(key, i);
    assert (p + Render(inner))[..|p|] == p;
  }
}
