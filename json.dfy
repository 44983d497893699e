/** The Python objects the repository reads from its JSON and xmltodict
    input: `None`, booleans, numbers, strings, lists and dicts. A dict is a
    sequence of entries in insertion order; lookups take the first entry with
    the key, which is the only entry when the keys are distinct, as they are
    in any dict Python builds. */
module Json {
  import opened Wrappers
  import opened Text

  datatype Value =
    | Null
    | Bool(b: bool)
    | Int(i: int)
    | Float(r: real)
    | Str(s: string)
    | List(items: seq<Value>)
    | Dict(entries: seq<Entry>)

  datatype Entry = Entry(key: string, value: Value)

  predicate DistinctKeys(es: seq<Entry>) {
    forall i, j | 0 <= i < j < |es| :: es[i].key != es[j].key
  }

  function Keys(es: seq<Entry>): (ks: seq<string>)
    ensures |ks| == |es| && forall i | 0 <= i < |es| :: ks[i] == es[i].key
  {
    seq(|es|, i requires 0 <= i < |es| => es[i].key)
  }

  /** `d.get(k)` on the entries of a dict: the value of the first entry with
      key `k`. */
  function Lookup(es: seq<Entry>, k: string): (r: Option<Value>)
    ensures r.Some? <==> exists i | 0 <= i < |es| :: es[i].key == k
    ensures r.Some? ==> exists i | 0 <= i < |es| ::
              es[i].key == k && es[i].value == r.value
              && forall j | 0 <= j < i :: es[j].key != k
    decreases |es|
  {
    if |es| == 0 then None
    else if es[0].key == k then Some(es[0].value)
    else
      var r := Lookup(es[1..], k);
      assert forall i | 1 <= i < |es| :: es[1..][i - 1] == es[i];
      r
  }

  /** `k in v` for a dict `v`. */
  predicate Has(v: Value, k: string) {
    v.Dict? && Lookup(v.entries, k).Some?
  }

  /** `v.get(k)`, `None` when `v` is not a dict or has no such key. */
  function Get(v: Value, k: string): (r: Option<Value>)
    ensures r.Some? <==> Has(v, k)
  {
    if v.Dict? then Lookup(v.entries, k) else None
  }

  /** `v.get(k, default)`: the default is used only when the key is absent,
      not when its value is empty. */
  function GetOr(v: Value, k: string, default: Value): (r: Value)
    ensures !Has(v, k) ==> r == default
    ensures Has(v, k) ==> Some(r) == Get(v, k)
  {
    Get(v, k).GetOr(default)
  }

  /** The position of the first entry with key `k`, or the length when
      there is none. */
  function Position(es: seq<Entry>, k: string): (i: nat)
    ensures i <= |es| && (forall j | 0 <= j < i :: es[j].key != k) && (i < |es| ==> es[i].key == k)
    decreases |es|
  {
    if |es| == 0 || es[0].key == k then 0
    else
      var i := Position(es[1..], k);
      assert forall j | 0 <= j < i :: es[1..][j] == es[j + 1];
      1 + i
  }

  /** `Lookup` reads the value at `Position`. */
  lemma {:induction false} PositionLookup(es: seq<Entry>, k: string)
    ensures Lookup(es, k) == if Position(es, k) < |es| then Some(es[Position(es, k)].value) else None
    decreases |es|
  {
    if |es| > 0 && es[0].key != k {
      PositionLookup(es[1..], k);
    }
  }

  /** A position before which no entry has the key, and at which the entry
      has it, is the one `Position` finds; `Lookup` reads the value there. */
  lemma PositionUnique(es: seq<Entry>, k: string, p: nat)
    requires p <= |es| && (forall j | 0 <= j < p :: es[j].key != k) && (p < |es| ==> es[p].key == k)
    ensures p == Position(es, k)
    ensures Lookup(es, k) == if p < |es| then Some(es[p].value) else None
  {
    PositionLookup(es, k);
  }

  /** `d[k] = x` on the entries of a dict: an existing key keeps its place,
      a new key is appended. */
  function Set(es: seq<Entry>, k: string, x: Value): (r: seq<Entry>) {
    var i := Position(es, k);
    if i < |es| then es[i := Entry(k, x)] else es + [Entry(k, x)]
  }

  /** After `d[k] = x`, `k` holds `x`, every other key holds what it held,
      and a key that was absent is added at the end. */
  lemma SetSpec(es: seq<Entry>, k: string, x: Value)
    ensures Lookup(Set(es, k, x), k) == Some(x)
    ensures forall k' | k' != k :: Lookup(Set(es, k, x), k') == Lookup(es, k')
    ensures Lookup(es, k).None? ==> Set(es, k, x) == es + [Entry(k, x)]
  {
    PositionLookup(es, k);
    if Position(es, k) < |es| {
      UpdateLookups(es, Position(es, k), Entry(k, x));
    } else {
      AppendLookups(es, Entry(k, x));
    }
  }

  /** `d[k] = x` keeps the keys in place when `k` is present and appends
      `k` otherwise. */
  lemma SetKeys(es: seq<Entry>, k: string, x: Value)
    ensures Lookup(es, k).Some? ==> Keys(Set(es, k, x)) == Keys(es)
    ensures Lookup(es, k).None? ==> Keys(Set(es, k, x)) == Keys(es) + [k]
  {
    PositionLookup(es, k);
    var r := Set(es, k, x);
    if Position(es, k) < |es| {
      assert forall j | 0 <= j < |es| :: r[j].key == es[j].key;
    } else {
      assert forall j | 0 <= j < |es| :: r[j].key == es[j].key;
      assert r[|es|].key == k;
    }
  }

  /** Overwriting the first entry with a key changes that key's value only. */
  lemma UpdateLookups(es: seq<Entry>, i: nat, e: Entry)
    requires i == Position(es, e.key) < |es|
    ensures Lookup(es[i := e], e.key) == Some(e.value)
    ensures forall k' | k' != e.key :: Lookup(es[i := e], k') == Lookup(es, k')
  {
    PositionUnique(es[i := e], e.key, i);
    forall k' | k' != e.key ensures Lookup(es[i := e], k') == Lookup(es, k') {
      UpdateOther(es, i, e, k');
    }
  }

  lemma UpdateOther(es: seq<Entry>, i: nat, e: Entry, k: string)
    requires i < |es| && es[i].key == e.key != k
    ensures Lookup(es[i := e], k) == Lookup(es, k)
  {
    var p := Position(es, k);
    var r := es[i := e];
    forall j | 0 <= j < p ensures r[j].key != k {
      assert r[j].key == es[j].key;
    }
    if p < |es| {
      assert r[p] == es[p];
    }
    PositionUnique(r, k, p);
  }

  /** Appending an entry with a new key changes that key's value only. */
  lemma AppendLookups(es: seq<Entry>, e: Entry)
    requires Position(es, e.key) == |es|
    ensures Lookup(es + [e], e.key) == Some(e.value)
    ensures forall k' | k' != e.key :: Lookup(es + [e], k') == Lookup(es, k')
  {
    assert forall j | 0 <= j < |es| :: (es + [e])[j] == es[j];
    PositionUnique(es + [e], e.key, |es|);
    forall k' | k' != e.key ensures Lookup(es + [e], k') == Lookup(es, k') {
      AppendOther(es, e, k');
    }
  }

  lemma AppendOther(es: seq<Entry>, e: Entry, k: string)
    requires e.key != k
    ensures Lookup(es + [e], k) == Lookup(es, k)
  {
    var p := Position(es, k);
    var r := es + [e];
    PositionLookup(es, k);
    if p < |es| {
      forall j | 0 <= j < p ensures r[j].key != k {
        assert r[j] == es[j];
      }
      assert r[p] == es[p];
      PositionUnique(r, k, p);
    } else {
      forall j | 0 <= j < |r| ensures r[j].key != k {
        if j < |es| {
          assert r[j] == es[j];
        }
      }
      PositionUnique(r, k, |r|);
    }
  }

  /** Python truthiness: `None`, `False`, zero, and empty strings, lists and
      dicts are false. */
  predicate Truthy(v: Value) {
    match v
    case Null => false
    case Bool(b) => b
    case Int(i) => i != 0
    case Float(r) => r != 0.0
    case Str(s) => |s| > 0
    case List(items) => |items| > 0
    case Dict(entries) => |entries| > 0
  }

  /** `str(v)` for the values whose text the source formats into its output.
      Floats, lists and dicts get a fixed placeholder. */
  function Stringify(v: Value): (r: string)
    ensures v.Str? ==> r == v.s
  {
    match v
    case Null => "None"
    case Bool(b) => if b then "True" else "False"
    case Int(i) => IntToString(i)
    case Float(_) => "<float>"
    case Str(s) => s
    case List(_) => "<list>"
    case Dict(_) => "<dict>"
  }

  /** The dict-or-list normaliser used throughout the source: a dict stands
      for a one-element list, a list is kept, anything else is empty. */
  function AsList(v: Value): (r: seq<Value>)
    ensures v.Dict? ==> r == [v]
    ensures v.List? ==> r == v.items
    ensures !v.Dict? && !v.List? ==> r == []
  {
    match v
    case Dict(_) => [v]
    case List(items) => items
    case _ => []
  }

  /** `for x in v`: a list yields its items, a dict its keys, a string its
      characters; iterating anything else raises `TypeError` (`None`). */
  function Iterate(v: Value): (r: Option<seq<Value>>)
    ensures r.Some? <==> v.List? || v.Dict? || v.Str?
    ensures v.List? ==> r == Some(v.items)
    ensures v.Dict? ==> (r.Some? && |r.value| == |v.entries|
              && forall i | 0 <= i < |v.entries| :: r.value[i] == Str(v.entries[i].key))
    ensures v.Str? ==> (r.Some? && |r.value| == |v.s|
              && forall i | 0 <= i < |v.s| :: r.value[i] == Str([v.s[i]]))
  {
    match v
    case List(items) => Some(items)
    case Dict(entries) => Some(seq(|entries|, i requires 0 <= i < |entries| => Str(entries[i].key)))
    case Str(s) => Some(seq(|s|, i requires 0 <= i < |s| => Str([s[i]])))
    case _ => None
  }

  /** A dict whose values are all strings: the shape xmltodict gives an XML
      element that has attributes only. */
  predicate StrDict(v: Value) {
    v.Dict? && forall e | e in v.entries :: e.value.Str?
  }

  lemma StrDictGet(v: Value, k: string)
    requires StrDict(v) && Has(v, k)
    ensures Get(v, k).value.Str?
  {
    var i :| 0 <= i < |v.entries| && v.entries[i].key == k && v.entries[i].value == Get(v, k).value;
    assert v.entries[i] in v.entries;
  }

  /** `d.get(k1, d.get(k2, ''))` for a dict of strings: the first key when
      present (even when empty), otherwise the second, otherwise `""`. */
  function Attr2(v: Value, k1: string, k2: string): (r: string)
    requires StrDict(v)
    ensures Has(v, k1) ==> Str(r) == Get(v, k1).value
    ensures !Has(v, k1) && Has(v, k2) ==> Str(r) == Get(v, k2).value
    ensures !Has(v, k1) && !Has(v, k2) ==> r == ""
  {
    if Has(v, k1) then (StrDictGet(v, k1); Get(v, k1).value.s)
    else if Has(v, k2) then (StrDictGet(v, k2); Get(v, k2).value.s)
    else ""
  }

  // ---------------------------------------------------------------- Python types

  /** `type(v)`: a boolean's type is `bool`, not `int`. */
  datatype PyType = NoneType | BoolType | IntType | FloatType | StrType | ListType | DictType

  function TypeOf(v: Value): (t: PyType)
    ensures t == DictType <==> v.Dict?
    ensures t == ListType <==> v.List?
  {
    match v
    case Null => NoneType
    case Bool(_) => BoolType
    case Int(_) => IntType
    case Float(_) => FloatType
    case Str(_) => StrType
    case List(_) => ListType
    case Dict(_) => DictType
  }

  /** `type(v).__name__`. */
  function TypeName(v: Value): (r: string) {
    match TypeOf(v)
    case NoneType => "NoneType"
    case BoolType => "bool"
    case IntType => "int"
    case FloatType => "float"
    case StrType => "str"
    case ListType => "list"
    case DictType => "dict"
  }

  // ---------------------------------------------------------------- Python calls that can raise

  /** The error raised by a Python call on a value of the wrong shape
      (`AttributeError` or `TypeError`). */
  const WrongShape := "wrong shape"

  /** `v.get(k, default)`, which raises unless `v` is a dict. */
  function PyGet(v: Value, k: string, default: Value): (r: Result<Value, string>)
    ensures r.Ok? <==> v.Dict?
    ensures r.Ok? ==> r.value == GetOr(v, k, default)
  {
    if v.Dict? then Ok(GetOr(v, k, default)) else Err(WrongShape)
  }

  /** `v.get(k1, v.get(k2, ''))`. */
  function PyGet2(v: Value, k1: string, k2: string): (r: Result<Value, string>)
    ensures r.Ok? <==> v.Dict?
    ensures Has(v, k1) ==> r == Ok(Get(v, k1).value)
    ensures v.Dict? && !Has(v, k1) && Has(v, k2) ==> r == Ok(Get(v, k2).value)
    ensures v.Dict? && !Has(v, k1) && !Has(v, k2) ==> r == Ok(Str(""))
  {
    if v.Dict? then Ok(GetOr(v, k1, GetOr(v, k2, Str("")))) else Err(WrongShape)
  }

  /** The elements a `for` loop visits after the source's normalisation
      `if isinstance(x, dict): x = [x]`: a dict is one element, a list its
      items, a string its characters; anything else raises. */
  function ElementsOf(v: Value): (r: Result<seq<Value>, string>)
    ensures v.Dict? ==> r == Ok([v])
    ensures v.List? ==> r == Ok(v.items)
    ensures r.Err? <==> !(v.Dict? || v.List? || v.Str?)
  {
    if v.Dict? then Ok([v])
    else match Iterate(v)
      case Some(xs) => Ok(xs)
      case None => Err(WrongShape)
  }

  /** `v and v.strip()` used as a condition: a falsy value is false without
      calling `strip`, a string is true when it holds a non-space character,
      and any other truthy value raises. */
  function NonBlank(v: Value): (r: Result<bool, string>)
    ensures !Truthy(v) ==> r == Ok(false)
    ensures v.Str? ==> r == Ok(exists k | 0 <= k < |v.s| :: !IsSpace(v.s[k]))
    ensures r.Err? <==> Truthy(v) && !v.Str?
  {
    if !Truthy(v) then Ok(false)
    else if v.Str? then
      StripBlank(v.s);
      Ok(|Strip(v.s)| > 0)
    else Err(WrongShape)
  }

  /** A string strips to nothing exactly when all of it is whitespace. */
  lemma StripBlank(s: string)
    ensures |Strip(s)| > 0 <==> exists k | 0 <= k < |s| :: !IsSpace(s[k])
  {
    var i := LStripFrom(s, 0);
    var j := RStripTo(s, i, |s|);
    if i < |s| {
      assert !IsSpace(s[i]);
      assert j > i;
    }
  }

  /** `v.lower()`, which raises unless `v` is a string. */
  function PyLower(v: Value): (r: Result<string, string>)
    ensures r.Ok? <==> v.Str?
    ensures v.Str? ==> r == Ok(Lower(v.s))
  {
    if v.Str? then Ok(Lower(v.s)) else Err(WrongShape)
  }

  /** `for f in keys: if f in v: return str(v[f])`, falling back to
      `default`: the text of the first key present. */
  function FirstKeyText(v: Value, keys: seq<string>, default: string): (r: string)
    ensures (forall k | k in keys :: !Has(v, k)) ==> r == default
    ensures forall i | 0 <= i < |keys| && Has(v, keys[i]) && (forall j | 0 <= j < i :: !Has(v, keys[j])) ::
              r == Stringify(Get(v, keys[i]).value)
    decreases |keys|
  {
    if |keys| == 0 then default
    else if Has(v, keys[0]) then Stringify(Get(v, keys[0]).value)
    else
      var r := FirstKeyText(v, keys[1..], default);
      assert forall i | 1 <= i < |keys| :: keys[1..][i - 1] == keys[i];
      r
  }

  /** `v[k]` with a string key: a `KeyError` when a dict lacks the key, a
      `TypeError` when `v` is not a dict. */
  function Index(v: Value, k: string): (r: Result<Value, string>)
    ensures r.Ok? <==> Has(v, k)
    ensures r.Ok? ==> Get(v, k) == Some(r.value)
  {
    if Has(v, k) then Ok(Get(v, k).value) else Err(WrongShape)
  }

  /** `v[i]` with a non-negative position: an item of a list, a one-letter
      string of a string; an `IndexError` past the end, a `KeyError` or
      `TypeError` on anything else. */
  function Item(v: Value, i: nat): (r: Result<Value, string>)
    ensures r.Ok? <==> (v.List? && i < |v.items|) || (v.Str? && i < |v.s|)
    ensures v.List? && i < |v.items| ==> r == Ok(v.items[i])
  {
    match v
    case List(items) => if i < |items| then Ok(items[i]) else Err(WrongShape)
    case Str(s) => if i < |s| then Ok(Str([s[i]])) else Err(WrongShape)
    case _ => Err(WrongShape)
  }

  /** `v[k]` where the source needs a string: xmltodict renders every XML
      attribute as one, and any other value (or a missing key, or a `v`
      that is not a dict) is an error. */
  function StrAt(v: Value, k: string): (r: Result<string, string>)
    ensures r.Ok? <==> Has(v, k) && Get(v, k).value.Str?
    ensures r.Ok? ==> Get(v, k) == Some(Str(r.value))
  {
    if Has(v, k) && Get(v, k).value.Str? then Ok(Get(v, k).value.s) else Err(WrongShape)
  }

  /** `v.get(k, default)` where the source needs a string: the default when
      the key is absent, an error when `v` is not a dict or the value is not
      a string. */
  function StrOr(v: Value, k: string, default: string): (r: Result<string, string>)
    ensures r.Ok? <==> v.Dict? && (Has(v, k) ==> Get(v, k).value.Str?)
    ensures r.Ok? && Has(v, k) ==> Get(v, k) == Some(Str(r.value))
    ensures r.Ok? && !Has(v, k) ==> r.value == default
  {
    if !v.Dict? then Err(WrongShape)
    else if !Has(v, k) then Ok(default)
    else StrAt(v, k)
  }

  /** The position of the first entry with key `k`. */
  function KeyIndex(es: seq<Entry>, k: string): (i: nat)
    requires exists j | 0 <= j < |es| :: es[j].key == k
    ensures i < |es| && es[i].key == k && forall j | 0 <= j < i :: es[j].key != k
    ensures Lookup(es, k) == Some(es[i].value)
    decreases |es|
  {
    if es[0].key == k then 0
    else
      assert exists j | 0 <= j < |es[1..]| :: es[1..][j].key == k by {
        var j :| 0 <= j < |es| && es[j].key == k;
        assert es[1..][j - 1].key == k;
      }
      1 + KeyIndex(es[1..], k)
  }

  /** `k in v` followed by `v[k]`, for a string `k`: the value when a dict
      has the key, nothing when `k` is not in `v`, and a raise when `in` or
      the subscript raises. `k in` a string looks for a substring and `k in`
      a list for an equal item; either then fails to subscript by a string.
      `in` raises on `None`, booleans and numbers. */
  function Member(v: Value, k: string): (r: Result<Option<Value>, string>)
    ensures r.Ok? && r.value.Some? <==> Has(v, k)
    ensures Has(v, k) ==> r == Ok(Get(v, k))
    ensures v.Dict? ==> r.Ok?
  {
    match v
    case Dict(es) => Ok(Lookup(es, k))
    case Str(s) => if Contains(s, k) then Err(WrongShape) else Ok(None)
    case List(items) => if Str(k) in items then Err(WrongShape) else Ok(None)
    case _ => Err(WrongShape)
  }
}
