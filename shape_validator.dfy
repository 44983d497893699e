/** The example-shaped validator: a schema is an example payload, and an
    input conforms when it has every key of the schema with a value of
    exactly the same Python type, dicts conforming recursively and every
    list item conforming to the schema list's first item. */
module ShapeValidator {
  import opened Wrappers
  import opened Json
  import opened Seqs

  /** `type(a) == type(b)`. */
  predicate SameType(a: Value, b: Value) {
    TypeOf(a) == TypeOf(b)
  }

  /** `validate_schema(input_json, schema_json)`: `Ok(b)` for a returned
      `b`, `Err` for a raise (`.items()` of a schema that is not a dict,
      or a lookup the input's shape does not allow). */
  function Conforms(input: Value, schema: Value): (r: Result<bool, string>)
    decreases schema, 2
  {
    if !schema.Dict? then Err(WrongShape)
    else Every(EntryResults(input, schema))
  }

  /** The checks of the schema's entries, in order. */
  function EntryResults(input: Value, schema: Value): (rs: seq<Result<bool, string>>)
    requires schema.Dict?
    ensures |rs| == |schema.entries| && forall i | 0 <= i < |rs| :: rs[i] == EntryConforms(input, schema, i)
    decreases schema, 1
  {
    seq(|schema.entries|, i requires 0 <= i < |schema.entries| => EntryConforms(input, schema, i))
  }

  /** The check of entry `i` of the schema: the key must be in the input
      with a value of the same type; a dict must conform; a non-empty
      list must have its items conform to the first item of a non-empty
      schema list. */
  function EntryConforms(input: Value, schema: Value, i: nat): (r: Result<bool, string>)
    requires schema.Dict? && i < |schema.entries|
    decreases schema, 0
  {
    var sv := schema.entries[i].value;
    match Member(input, schema.entries[i].key)
    case Err(e) => Err(e)
    case Ok(None) => Ok(false)
    case Ok(Some(v)) =>
      if !SameType(v, sv) then Ok(false)
      else if sv.Dict? then Conforms(v, sv)
      else if sv.List? && |v.items| > 0 && |sv.items| > 0 then ItemsConform(v.items, sv.items[0])
      else Ok(true)
  }

  /** `for item in input_value: if not validate_schema(item, schema_value[0])`. */
  function ItemsConform(items: seq<Value>, itemSchema: Value): (r: Result<bool, string>)
    decreases itemSchema, 4
  {
    Every(ItemResults(items, itemSchema))
  }

  /** The checks of the items, in order. */
  function ItemResults(items: seq<Value>, itemSchema: Value): (rs: seq<Result<bool, string>>)
    ensures |rs| == |items| && forall k | 0 <= k < |items| :: rs[k] == Conforms(items[k], itemSchema)
    decreases itemSchema, 3
  {
    seq(|items|, k requires 0 <= k < |items| => Conforms(items[k], itemSchema))
  }

  // ---------------------------------------------------------------- properties

  /** A dict schema is met exactly when every entry's check passes; the
      first entry that fails or raises decides the outcome. */
  lemma ConformsSpec(input: Value, schema: Value)
    requires schema.Dict?
    ensures Conforms(input, schema) == Ok(true) <==>
      forall i | 0 <= i < |schema.entries| :: EntryConforms(input, schema, i) == Ok(true)
    ensures Conforms(input, schema) != Ok(true) ==>
      exists i | 0 <= i < |schema.entries| :: Conforms(input, schema) == EntryConforms(input, schema, i)
        && forall j | 0 <= j < i :: EntryConforms(input, schema, j) == Ok(true)
  {
    var rs := EntryResults(input, schema);
    assert Conforms(input, schema) == Every(rs);
    EverySpec(rs);
    if Conforms(input, schema) == Ok(true) {
      forall i | 0 <= i < |schema.entries| ensures EntryConforms(input, schema, i) == Ok(true) {
        assert rs[i] == Ok(true);
      }
    } else {
      var i :| 0 <= i < |rs| && Every(rs) == rs[i] && forall j | 0 <= j < i :: rs[j] == Ok(true);
      assert rs[i] == EntryConforms(input, schema, i);
      forall j | 0 <= j < i ensures EntryConforms(input, schema, j) == Ok(true) {
        assert rs[j] == Ok(true);
      }
      assert EntryConforms(input, schema, i) != Ok(true);
    }
  }

  /** A schema that is not a dict raises. */
  lemma NotDictRaises(input: Value, schema: Value)
    requires !schema.Dict?
    ensures Conforms(input, schema).Err?
  {
  }

  /** An input that conforms has every schema key, with a value of the
      schema value's type. */
  lemma ConformingHasKeys(input: Value, schema: Value)
    requires schema.Dict? && Conforms(input, schema) == Ok(true)
    ensures forall i | 0 <= i < |schema.entries| ::
      Has(input, schema.entries[i].key) && SameType(Get(input, schema.entries[i].key).value, schema.entries[i].value)
  {
    ConformsSpec(input, schema);
    forall i | 0 <= i < |schema.entries|
      ensures Has(input, schema.entries[i].key) && SameType(Get(input, schema.entries[i].key).value, schema.entries[i].value)
    {
      assert EntryConforms(input, schema, i) == Ok(true);
    }
  }

  /** A missing key, or a value of another type, fails the check once the
      entries before it have not raised. */
  lemma MissingOrMismatchFails(input: Value, schema: Value, i: nat)
    requires schema.Dict? && i < |schema.entries|
    requires forall j | 0 <= j < i :: EntryConforms(input, schema, j).Ok?
    requires Member(input, schema.entries[i].key) == Ok(None)
      || (Member(input, schema.entries[i].key).Ok? && Member(input, schema.entries[i].key).value.Some?
          && !SameType(Member(input, schema.entries[i].key).value.value, schema.entries[i].value))
    ensures Conforms(input, schema) == Ok(false)
  {
    var rs := EntryResults(input, schema);
    EntryFails(input, schema, i);
    assert forall j | 0 <= j < i :: rs[j].Ok?;
    EveryFalse(rs, i);
  }

  lemma EntryFails(input: Value, schema: Value, i: nat)
    requires schema.Dict? && i < |schema.entries|
    requires Member(input, schema.entries[i].key) == Ok(None)
      || (Member(input, schema.entries[i].key).Ok? && Member(input, schema.entries[i].key).value.Some?
          && !SameType(Member(input, schema.entries[i].key).value.value, schema.entries[i].value))
    ensures EntryConforms(input, schema, i) == Ok(false)
  {
  }

  /** A nested dict that does not conform makes the whole input fail in
      the same way once the entries before it have passed. */
  lemma NestedFailure(input: Value, schema: Value, i: nat, v: Value)
    requires schema.Dict? && i < |schema.entries| && schema.entries[i].value.Dict?
    requires forall j | 0 <= j < i :: EntryConforms(input, schema, j) == Ok(true)
    requires Member(input, schema.entries[i].key) == Ok(Some(v)) && v.Dict?
    requires Conforms(v, schema.entries[i].value) != Ok(true)
    ensures Conforms(input, schema) == Conforms(v, schema.entries[i].value)
  {
    EveryFirst(EntryResults(input, schema), i);
  }

  /** Non-empty lists pass exactly when every item conforms to the
      schema list's first item; an empty input list or an empty schema
      list passes. */
  lemma ListEntry(input: Value, schema: Value, i: nat, v: Value)
    requires schema.Dict? && i < |schema.entries| && schema.entries[i].value.List?
    requires Member(input, schema.entries[i].key) == Ok(Some(v)) && v.List?
    ensures |v.items| == 0 || |schema.entries[i].value.items| == 0 ==> EntryConforms(input, schema, i) == Ok(true)
    ensures |v.items| > 0 && |schema.entries[i].value.items| > 0 ==>
      (EntryConforms(input, schema, i) == Ok(true) <==>
         forall k | 0 <= k < |v.items| :: Conforms(v.items[k], schema.entries[i].value.items[0]) == Ok(true))
  {
    if |v.items| > 0 && |schema.entries[i].value.items| > 0 {
      EverySpec(ItemResults(v.items, schema.entries[i].value.items[0]));
    }
  }

  /** Keys of the input that the schema does not name play no part: two
      inputs that agree on the schema's keys get the same outcome. */
  lemma ExtraKeysIgnored(input: Value, other: Value, schema: Value)
    requires schema.Dict?
    requires forall i | 0 <= i < |schema.entries| :: Member(input, schema.entries[i].key) == Member(other, schema.entries[i].key)
    ensures Conforms(input, schema) == Conforms(other, schema)
  {
    var a := EntryResults(input, schema);
    var b := EntryResults(other, schema);
    forall i | 0 <= i < |a| ensures a[i] == b[i] {
      assert EntryConforms(input, schema, i) == EntryConforms(other, schema, i);
    }
    assert a == b;
  }
}
