/**
 * The values an argument definition holds, and the read-only views of an
 * argument that the schema builder and the serializer share.
 *
 * `ArgData` is a snapshot of one `Argument` object (or one of its typed
 * subclasses); the mutable object itself is `Arguments.Argument`.
 */
module ArgumentData {
  import opened Wrappers
  import opened Errors
  import Php

  /** A PHP float, kept as mantissa * 10^exponent. No arithmetic is done on it. */
  datatype Float = Float(mantissa: int, exponent: int)

  /** A validation or sanitization callable. The argument code stores these but never calls them. */
  datatype Callback = Callback(name: string)

  /** A PHP value as the argument code sees it (`mixed`). */
  datatype Value =
    | Null
    | Bool(b: bool)
    | Int(i: int)
    | Num(f: Float)
    | Str(s: string)
    | Fn(cb: Callback)
    | List(elems: seq<Value>)                     // array with keys 0..n-1
    | Assoc(entries: seq<(string, Value)>)        // array with string keys, in insertion order
    | Arg(arg: ArgData)                           // an Argument object

  /** Which class the argument object is an instance of. */
  datatype Kind =
    | Base          // Argument itself
    | StringType
    | IntegerType
    | NumberType
    | BooleanType
    | NullType
    | ArrayType
    | ObjectType

  /** Integer_Type and Number_Type carry the numeric constraints. */
  predicate IsNumeric(k: Kind) {
    k == IntegerType || k == NumberType
  }

  /** Array_Type and Object_Type use Element_Requirements. */
  predicate HasElements(k: Kind) {
    k == ArrayType || k == ObjectType
  }

  /** Element_Requirements: how array items (or object properties) combine. */
  datatype Relationship = AllOf | AnyOf | OneOf

  /**
   * Every field of an argument object. `relationship` and the three property
   * maps only exist on Array_Type/Object_Type; for other kinds they keep
   * their initial values.
   */
  datatype ArgData = ArgData(
    key: string,
    kind: Kind,
    validation: Option<Callback>,
    sanitization: Option<Callback>,
    required: Option<bool>,
    typ: Value,
    description: string,
    attributes: map<string, Value>,
    defaultValue: Value,
    format: Option<string>,
    expected: Option<seq<Value>>,
    relationship: Relationship,
    properties: map<string, ArgData>,
    additionalProperties: map<string, ArgData>,
    patternProperties: map<string, ArgData>)

  // ---------------------------------------------------------------------
  // Type names and the child type map
  // ---------------------------------------------------------------------

  /** The `Argument::TYPE_*` constant a typed subclass fixes in its constructor. */
  function TypeName(k: Kind): string
    requires k != Base
  {
    match k
    case StringType => "string"
    case IntegerType => "integer"
    case NumberType => "number"
    case BooleanType => "boolean"
    case NullType => "null"
    case ArrayType => "array"
    case ObjectType => "object"
  }

  /** `Children::type_map()`: type name to argument class. */
  const TypeMap: map<string, Kind> := map[
    "array" := ArrayType,
    "boolean" := BooleanType,
    "integer" := IntegerType,
    "number" := NumberType,
    "object" := ObjectType,
    "string" := StringType,
    "null" := NullType]

  /** The type map names exactly the seven typed classes, each under its own type name. */
  lemma TypeMapNamesItsClass(t: string)
    ensures t in TypeMap <==> t in {"array", "boolean", "integer", "number", "object", "string", "null"}
    ensures t in TypeMap ==> TypeMap[t] != Base && TypeName(TypeMap[t]) == t
  {
  }

  /** Every typed class is reachable through the type map. */
  lemma TypeMapCoversKinds(k: Kind)
    requires k != Base
    ensures TypeName(k) in TypeMap && TypeMap[TypeName(k)] == k
  {
  }

  /** `new Relationship` names as stored in the `relationship` field. */
  function RelationshipName(r: Relationship): string {
    match r
    case AllOf => "allOf"
    case AnyOf => "anyOf"
    case OneOf => "oneOf"
  }

  // ---------------------------------------------------------------------
  // Construction
  // ---------------------------------------------------------------------

  /**
   * The state right after `new C($key)`: every field at its declared
   * initial value, and, for a typed subclass, the type fixed by its constructor.
   */
  function Fresh(kind: Kind, key: string): (d: ArgData)
    ensures d.key == key && d.kind == kind
    ensures kind == Base ==> d.typ == Null
    ensures kind != Base ==> d.typ == Str(TypeName(kind))
    ensures d.attributes == map[] && d.required == None && d.defaultValue == Null
    ensures d.description == "" && d.format == None && d.expected == None
    ensures d.validation == None && d.sanitization == None && d.relationship == AllOf
  {
    ArgData(key, kind, None, None, None,
      if kind == Base then Null else Str(TypeName(kind)),
      "", map[], Null, None, None, AllOf, map[], map[], map[])
  }

  /** `$config ? $config($argument) : $argument`. */
  function ApplyConfig(config: Option<ArgData -> ArgData>, d: ArgData): ArgData {
    match config
    case None => d
    case Some(f) => f(d)
  }

  /** `Argument::on($key, $config)` on class `kind`. */
  function On(kind: Kind, key: string, config: Option<ArgData -> ArgData>): (d: ArgData)
    ensures config.None? ==> d == Fresh(kind, key)
    ensures config.Some? ==> d == config.value(Fresh(kind, key))
  {
    ApplyConfig(config, Fresh(kind, key))
  }

  // ---------------------------------------------------------------------
  // The attribute bag and typed getters
  // ---------------------------------------------------------------------

  /** `get_attribute($key, $fallback)`. */
  function GetAttribute(d: ArgData, k: string, fallback: Value): Value {
    if k in d.attributes then d.attributes[k] else fallback
  }

  /** After `add_attribute(k, v)`, `k` reads back `v` and every other key reads as before. */
  lemma AddAttributeThenGet(d: ArgData, k: string, v: Value, k': string, fallback: Value)
    ensures GetAttribute(d.(attributes := d.attributes[k := v]), k', fallback)
         == if k' == k then v else GetAttribute(d, k', fallback)
  {
  }

  /** The fallback comes back exactly when the key is absent (or holds that very value). */
  lemma GetAttributeFallback(d: ArgData, k: string, fallback: Value)
    ensures k !in d.attributes ==> GetAttribute(d, k, fallback) == fallback
    ensures k in d.attributes ==> GetAttribute(d, k, fallback) == d.attributes[k]
  {
  }

  /** The nullable declared return types the getters use under strict_types. */
  datatype PhpType = TInt | TFloat | TBool | TString | TArray

  function PhpTypeName(t: PhpType): string {
    match t
    case TInt => "int"
    case TFloat => "float"
    case TBool => "bool"
    case TString => "string"
    case TArray => "array"
  }

  function ValueTypeName(v: Value): string {
    match v
    case Null => "null"
    case Bool(_) => "bool"
    case Int(_) => "int"
    case Num(_) => "float"
    case Str(_) => "string"
    case Fn(_) => "Closure"
    case List(_) => "array"
    case Assoc(_) => "array"
    case Arg(_) => "Argument"
  }

  predicate IsArray(v: Value) {
    v.List? || v.Assoc?
  }

  /**
   * Returning `v` from a function declared `?t`: null and values of type `t`
   * pass, an int returned as `?float` is widened, anything else is a TypeError.
   */
  function Conform(v: Value, t: PhpType): (r: Option<Value>)
    ensures v == Null ==> r == Some(Null)
    ensures r.Some? && r.value == Null ==> v == Null
    ensures t == TInt ==> (r.Some? <==> v.Null? || v.Int?)
    ensures t == TBool ==> (r.Some? <==> v.Null? || v.Bool?)
    ensures t == TString ==> (r.Some? <==> v.Null? || v.Str?)
    ensures t == TFloat ==> (r.Some? <==> v.Null? || v.Num? || v.Int?)
    ensures t == TArray ==> (r.Some? <==> v.Null? || IsArray(v))
    ensures r.Some? && t != TFloat ==> r.value == v
  {
    match (v, t)
    case (Null, _) => Some(Null)
    case (Int(_), TInt) => Some(v)
    case (Int(i), TFloat) => Some(Num(Float(i, 0)))
    case (Num(_), TFloat) => Some(v)
    case (Bool(_), TBool) => Some(v)
    case (Str(_), TString) => Some(v)
    case (List(_), TArray) => Some(v)
    case (Assoc(_), TArray) => Some(v)
    case _ => None
  }

  /**
   * A getter of the form `return $this->get_attribute('k');` (or the
   * `array_key_exists` equivalent) declared to return `?t`.
   */
  function TypedAttribute(d: ArgData, k: string, t: PhpType): (r: Result<Value, Exception>)
    ensures k !in d.attributes ==> r == Success(Null)
    ensures k in d.attributes && Conform(d.attributes[k], t).Some? ==> r == Success(Conform(d.attributes[k], t).value)
    ensures r.Failure? <==> k in d.attributes && Conform(d.attributes[k], t).None?
    ensures r.Failure? ==> r.error.kind == TypeError
  {
    var v := GetAttribute(d, k, Null);
    match Conform(v, t)
    case Some(w) => Success(w)
    case None =>
      Failure(TypeErrorOf("Return value must be of type ?" + PhpTypeName(t) + ", " + ValueTypeName(v) + " returned"))
  }

  /** A setter that stores a value of the getter's own type reads it back unchanged. */
  lemma TypedAttributeRoundTrip(d: ArgData, k: string, v: Value, t: PhpType)
    requires t == TInt ==> v.Int?
    requires t == TBool ==> v.Bool?
    requires t == TString ==> v.Str?
    requires t == TFloat ==> v.Num?
    requires t == TArray ==> IsArray(v)
    ensures TypedAttribute(d.(attributes := d.attributes[k := v]), k, t) == Success(v)
  {
  }

  // ---------------------------------------------------------------------
  // Generic getters of Argument
  // ---------------------------------------------------------------------

  /** `is_required()`: the tri-state, read with `?? false`. */
  function IsRequired(d: ArgData): (r: bool)
    ensures d.required == None ==> !r
    ensures d.required.Some? ==> r == d.required.value
  {
    d.required.GetOr(false)
  }

  /** `has_default()`. */
  predicate HasDefault(d: ArgData) {
    d.defaultValue != Null
  }

  /** `get_name()`: the `name` attribute, declared `?string`. */
  function GetName(d: ArgData): Result<Value, Exception> {
    TypedAttribute(d, "name", TString)
  }

  /** `name($n)` then `get_name()` gives `n`; before any `name` attribute it gives null. */
  lemma NameRoundTrip(d: ArgData, n: string)
    ensures GetName(d.(attributes := d.attributes["name" := Str(n)])) == Success(Str(n))
    ensures "name" !in d.attributes ==> GetName(d) == Success(Null)
  {
  }

  // ---------------------------------------------------------------------
  // union_with_type and expected
  // ---------------------------------------------------------------------

  ghost predicate NoDup<T>(s: seq<T>) {
    forall i, j :: 0 <= i < j < |s| ==> s[i] != s[j]
  }

  /** Where `x` first occurs in `s`. */
  function FirstIndex(s: seq<Value>, x: Value): (i: nat)
    requires x in s
    ensures i < |s| && s[i] == x && x !in s[..i]
  {
    if s[0] == x then 0 else 1 + FirstIndex(s[1..], x)
  }

  /** Appending to a list moves no first occurrence; a new value first occurs at the end. */
  lemma {:induction false} FirstIndexSnoc(init: seq<Value>, y: Value, x: Value)
    requires x in init + [y]
    ensures x in init ==> FirstIndex(init + [y], x) == FirstIndex(init, x)
    ensures x !in init ==> FirstIndex(init + [y], x) == |init|
  {
    if init != [] && init[0] != x {
      assert (init + [y])[1..] == init[1..] + [y];
      FirstIndexSnoc(init[1..], y, x);
    }
  }

  lemma FirstIndexSnocAll(init: seq<Value>, y: Value)
    ensures forall x :: x in init ==> FirstIndex(init + [y], x) == FirstIndex(init, x)
    ensures y !in init ==> FirstIndex(init + [y], y) == |init|
  {
    forall x | x in init + [y] {
      FirstIndexSnoc(init, y, x);
    }
  }

  /**
   * `array_unique` on a list: each value once, at its first position, in
   * the order in which the values first occur.
   */
  function Dedup(s: seq<Value>): (r: seq<Value>)
    ensures forall x :: x in r <==> x in s
    ensures NoDup(r)
    ensures forall i, j :: 0 <= i < j < |r| ==> FirstIndex(s, r[i]) < FirstIndex(s, r[j])
  {
    if s == [] then []
    else
      var init, y := s[..|s| - 1], s[|s| - 1];
      var p := Dedup(init);
      assert s == init + [y];
      FirstIndexSnocAll(init, y);
      if y in p then p else p + [y]
  }

  /** A list without duplicates is left as it is. */
  lemma {:induction false} DedupNoDup(s: seq<Value>)
    requires NoDup(s)
    ensures Dedup(s) == s
  {
    if s != [] {
      var init := s[..|s| - 1];
      assert NoDup(init);
      DedupNoDup(init);
      assert s[|s| - 1] !in init;
    }
  }

  /** The values of an ordered array, in order (`array_values`). */
  function Values(entries: seq<(string, Value)>): (vs: seq<Value>)
    ensures |vs| == |entries|
    ensures forall i :: 0 <= i < |entries| ==> vs[i] == entries[i].1
  {
    if entries == [] then [] else [entries[0].1] + Values(entries[1..])
  }

  /** The values of an array, in order (`array_values`); no values for a non-array. */
  function ItemValues(items: Value): (vs: seq<Value>)
    ensures |vs| == Count(items)
  {
    match items
    case List(es) => es
    case Assoc(es) => Values(es)
    case _ => []
  }

  /** `array_values` of an array with one more entry at the end. */
  lemma ValuesSnoc(es: seq<(string, Value)>, e: (string, Value))
    ensures Values(es + [e]) == Values(es) + [e.1]
  {
    assert forall i :: 0 <= i < |es| + 1 ==> Values(es + [e])[i] == (Values(es) + [e.1])[i];
  }

  /** `$a[] = $x` adds `x` to the end of `array_values($a)`. */
  lemma AppendValues(es: seq<(string, Value)>, x: Value)
    ensures Values(Php.Append(es, x)) == Values(es) + [x]
  {
    var r := Php.Append(es, x);
    assert r == es + [r[|es|]];
    ValuesSnoc(es, r[|es|]);
  }

  /**
   * The type list `union_with_type` starts from: an array's values, nothing
   * for null, the single type otherwise.
   */
  function TypeList(typ: Value): (ts: seq<Value>)
    ensures IsArray(typ) ==> ts == ItemValues(typ)
    ensures typ == Null ==> ts == []
    ensures !IsArray(typ) && typ != Null ==> ts == [typ]
  {
    match typ
    case List(es) => es
    case Assoc(es) => Values(es)
    case Null => []
    case _ => [typ]
  }

  /**
   * `union_with_type($t)`: the current type becomes a list (null gives an
   * empty list, a single type a one-element list), `t` is appended, and
   * duplicates are dropped keeping first occurrences.
   */
  function UnionWithType(typ: Value, t: string): Value {
    List(Dedup(TypeList(typ) + [Str(t)]))
  }

  /** A null type becomes `[t]`. */
  lemma UnionWithNull(t: string)
    ensures UnionWithType(Null, t) == List([Str(t)])
  {
    assert [] + [Str(t)] == [Str(t)];
    DedupNoDup([Str(t)]);
  }

  /** A single type `s` becomes `[s, t]`, or stays `[s]` when `t` is `s`. */
  lemma UnionWithSingle(s: string, t: string)
    ensures UnionWithType(Str(s), t) == if s == t then List([Str(s)]) else List([Str(s), Str(t)])
  {
    var l := [Str(s), Str(t)];
    assert TypeList(Str(s)) + [Str(t)] == l;
    if s == t {
      assert Dedup(l) == [Str(s)] by {
        assert l[..1] == [Str(s)];
        DedupNoDup([Str(s)]);
      }
    } else {
      DedupNoDup(l);
    }
  }

  /** A list without duplicates gets `t` appended unless it already holds it; prior order is kept. */
  lemma UnionWithList(es: seq<Value>, t: string)
    requires NoDup(es)
    ensures UnionWithType(List(es), t) == if Str(t) in es then List(es) else List(es + [Str(t)])
  {
    var l := es + [Str(t)];
    assert l[..|l| - 1] == es;
    DedupNoDup(es);
  }

  /**
   * The union is a list holding exactly the earlier types and the new one,
   * each once, in the order in which they first occur.
   */
  lemma UnionWithTypeContents(typ: Value, t: string)
    ensures UnionWithType(typ, t).List?
    ensures var ts, r := TypeList(typ) + [Str(t)], UnionWithType(typ, t).elems;
      && (forall x :: x in r <==> x in ts)
      && NoDup(r)
      && (forall i, j :: 0 <= i < j < |r| ==> FirstIndex(ts, r[i]) < FirstIndex(ts, r[j]))
    ensures Str(t) in UnionWithType(typ, t).elems
    ensures IsArray(typ) ==> forall x :: x in ItemValues(typ) ==> x in UnionWithType(typ, t).elems
    ensures !IsArray(typ) && typ != Null ==> typ in UnionWithType(typ, t).elems
  {
  }

  /** `expected(...$vs)`: the first call sets the list, later calls append. */
  function AppendExpected(current: Option<seq<Value>>, vs: seq<Value>): (r: Option<seq<Value>>)
    ensures current.None? ==> r == Some(vs)
    ensures current.Some? ==> r == Some(current.value + vs)
  {
    match current
    case None => Some(vs)
    case Some(es) => Some(es + vs)
  }

  /** Two `expected` calls accumulate both argument lists in call order. */
  lemma ExpectedAccumulates(current: Option<seq<Value>>, vs: seq<Value>, ws: seq<Value>)
    ensures AppendExpected(AppendExpected(current, vs), ws) == Some(current.GetOr([]) + vs + ws)
  {
    if current.Some? {
      assert current.value + vs + ws == current.value + (vs + ws);
    } else {
      assert [] + vs + ws == vs + ws;
    }
  }

  // ---------------------------------------------------------------------
  // Array_Type item views
  // ---------------------------------------------------------------------

  function Count(v: Value): nat {
    match v
    case List(es) => |es|
    case Assoc(es) => |es|
    case _ => 0
  }

  /** `item_count()`: the size of the `items` attribute, 0 when it is not an array. */
  function ItemCount(d: ArgData): (n: nat)
    ensures "items" !in d.attributes ==> n == 0
    ensures "items" in d.attributes && IsArray(d.attributes["items"]) ==> n == Count(d.attributes["items"])
    ensures "items" in d.attributes && d.attributes["items"].List? ==> n == |d.attributes["items"].elems|
  {
    var items := GetAttribute(d, "items", Null);
    if IsArray(items) then Count(items) else 0
  }

  /** `has_items()`: `items` is a non-empty array. */
  function HasItems(d: ArgData): (r: bool)
    ensures r <==> ItemCount(d) > 0
  {
    var items := GetAttribute(d, "items", Null);
    IsArray(items) && Count(items) > 0
  }

  /**
   * `$items[] = $x` on an array. The model writes PHP's empty array as the
   * empty list, so appending to an empty array gives a one-element list; a
   * non-empty string-keyed array takes `x` under its next integer key.
   */
  function AppendToArray(items: Value, x: Value): (r: Value)
    requires IsArray(items)
    ensures IsArray(r) && Count(r) == Count(items) + 1
    ensures ItemValues(r) == ItemValues(items) + [x]
    ensures items.List? || Count(items) == 0 ==> r.List?
    ensures items.Assoc? && items.entries != [] ==>
      r.Assoc? && Php.Keys(r.entries) == Php.Keys(items.entries) + [Php.DecimalString(Php.NextIntKey(items.entries))]
  {
    if items.List? then List(items.elems + [x])
    else if items.entries == [] then List([x])
    else
      AppendValues(items.entries, x);
      Assoc(Php.Append(items.entries, x))
  }

  /** The message of the TypeError `array_key_last` raises for a non-array. */
  function ArrayKeyLastMessage(v: Value): string {
    "array_key_last(): Argument #1 ($array) must be of type array, " + ValueTypeName(v) + " given"
  }

  /**
   * The number `create_item_type` gives a new item: `array_key_last` plus
   * one, or 0 for an empty array. `array_key_last` of a non-array is a
   * TypeError, and so is adding 1 to a last key that is not an integer.
   */
  function NextItemNumber(items: Value): (r: Result<nat, Exception>)
    ensures r.Success? <==>
      IsArray(items) && (items.Assoc? && items.entries != [] ==> Php.IsIntKey(items.entries[|items.entries| - 1].0))
    ensures items.List? ==> r == Success(|items.elems|)
    ensures IsArray(items) && Count(items) == 0 ==> r == Success(0)
    ensures r.Success? && items.Assoc? && items.entries != [] ==>
      r.value == Php.DecimalValue(items.entries[|items.entries| - 1].0) + 1
    ensures r.Failure? ==> r.error.kind == TypeError
  {
    if items.List? then Success(|items.elems|)
    else if !items.Assoc? then Failure(TypeErrorOf(ArrayKeyLastMessage(items)))
    else if items.entries == [] then Success(0)
    else
      var last := items.entries[|items.entries| - 1].0;
      if Php.IsIntKey(last) then Success(Php.DecimalValue(last) + 1)
      else Failure(TypeErrorOf("Unsupported operand types: string + int"))
  }
}
