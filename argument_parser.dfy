/**
 * `Argument_Parser`: turns an argument (and, for arrays, its items,
 * recursively) into the nested array WordPress expects. The argument is only
 * read. A getter whose declared return type the stored attribute does not
 * satisfy raises a TypeError, so every step returns a `Result`.
 */
module ArgumentParser {
  import opened Wrappers
  import opened Errors
  import opened ArgumentData
  import Php

  /** A PHP array with string keys, in insertion order. */
  type Entries = seq<(string, Value)>

  /** `if (!is_null($v)) { $attributes[$k] = $v; }`, written in front of the later fields. */
  function Emit(k: string, v: Value, rest: Entries): Entries {
    if v == Null then rest else [(k, v)] + rest
  }

  // ---------------------------------------------------------------------
  // Field order
  // ---------------------------------------------------------------------

  /** The position of each key in the serialized map; -1 for keys the parser never writes. */
  function Rank(k: string): int {
    match k
    case "validate_callback" => 0
    case "sanitize_callback" => 1
    case "type" => 2
    case "required" => 3
    case "description" => 4
    case "default" => 5
    case "format" => 6
    case "name" => 7
    case "enum" => 8
    case "minLength" => 9
    case "maxLength" => 10
    case "pattern" => 11
    case "multipleOf" => 12
    case "minimum" => 13
    case "exclusiveMinimum" => 14
    case "maximum" => 15
    case "exclusiveMaximum" => 16
    case "items" => 17
    case "minItems" => 18
    case "maxItems" => 19
    case "uniqueItems" => 20
    case _ => -1
  }

  /** Every key ranks strictly between `lo` and `hi`, and ranks increase along the array. */
  predicate Ascending(es: Entries, lo: int, hi: int)
    decreases |es|
  {
    es == [] || (lo < Rank(es[0].0) < hi && Ascending(es[1..], Rank(es[0].0), hi))
  }

  lemma {:induction false} AscendingWeaken(es: Entries, lo: int, lo': int, hi: int)
    requires Ascending(es, lo', hi) && lo <= lo'
    ensures Ascending(es, lo, hi)
  {
  }

  lemma EmitAscending(k: string, v: Value, rest: Entries, lo: int, hi: int)
    requires lo < Rank(k) < hi && Ascending(rest, Rank(k), hi)
    ensures Ascending(Emit(k, v, rest), lo, hi)
  {
    if v == Null {
      AscendingWeaken(rest, lo, Rank(k), hi);
    } else {
      assert ([(k, v)] + rest)[1..] == rest;
    }
  }

  /** Ascending arrays hold each key once, all within the bounds. */
  lemma {:induction false} AscendingUnique(es: Entries, lo: int, hi: int)
    requires Ascending(es, lo, hi)
    ensures forall i :: 0 <= i < |es| ==> lo < Rank(es[i].0) < hi
    ensures Php.UniqueKeys(es)
    decreases |es|
  {
    if es != [] {
      AscendingUnique(es[1..], Rank(es[0].0), hi);
      assert forall i :: 1 <= i < |es| ==> es[i] == es[1..][i - 1];
    }
  }

  lemma {:induction false} AscendingConcat(a: Entries, b: Entries, lo: int, mid: int, hi: int)
    requires lo < mid <= hi
    requires Ascending(a, lo, mid) && Ascending(b, mid - 1, hi)
    ensures Ascending(a + b, lo, hi)
    decreases |a|
  {
    if a == [] {
      assert a + b == b;
      AscendingWeaken(b, lo, mid - 1, hi);
    } else {
      AscendingConcat(a[1..], b, Rank(a[0].0), mid, hi);
      assert (a + b)[0] == a[0];
      assert (a + b)[1..] == a[1..] + b;
    }
  }

  /** One candidate in front of the later ones. */
  function Cons(k: string, v: Value, rest: Entries): Entries {
    [(k, v)] + rest
  }

  lemma AscendingCons(k: string, v: Value, rest: Entries, lo: int, hi: int)
    requires lo < Rank(k) < hi && Ascending(rest, Rank(k), hi)
    ensures Ascending(Cons(k, v, rest), lo, hi)
  {
    assert Cons(k, v, rest)[1..] == rest;
  }

  /** The candidates of `to_array`'s generic block come in rank order. */
  lemma GenericCandidatesAscending(a: ArgData, name: Value)
    ensures Ascending(GenericCandidates(a, name), -1, 9)
  {
    var c8 := Cons("enum", EnumValue(a), []);
    AscendingCons("enum", EnumValue(a), [], 7, 9);
    var c7 := Cons("name", name, c8);
    AscendingCons("name", name, c8, 6, 9);
    var c6 := Cons("format", FormatValue(a), c7);
    AscendingCons("format", FormatValue(a), c7, 5, 9);
    var c5 := Cons("default", a.defaultValue, c6);
    AscendingCons("default", a.defaultValue, c6, 4, 9);
    var c4 := Cons("description", DescriptionValue(a), c5);
    AscendingCons("description", DescriptionValue(a), c5, 3, 9);
    var c3 := Cons("required", RequiredValue(a), c4);
    AscendingCons("required", RequiredValue(a), c4, 2, 9);
    var c2 := Cons("type", a.typ, c3);
    AscendingCons("type", a.typ, c3, 1, 9);
    var c1 := Cons("sanitize_callback", CallbackValue(a.sanitization), c2);
    AscendingCons("sanitize_callback", CallbackValue(a.sanitization), c2, 0, 9);
    AscendingCons("validate_callback", CallbackValue(a.validation), c1, -1, 9);
  }

  /** A run of conditional inserts: each candidate is written, in order, when its value is non-null. */
  function Emitted(candidates: Entries): Entries {
    if candidates == [] then [] else Emit(candidates[0].0, candidates[0].1, Emitted(candidates[1..]))
  }

  lemma {:induction false} EmittedAscending(candidates: Entries, lo: int, hi: int)
    requires Ascending(candidates, lo, hi)
    ensures Ascending(Emitted(candidates), lo, hi)
    decreases |candidates|
  {
    if candidates != [] {
      EmittedAscending(candidates[1..], Rank(candidates[0].0), hi);
      EmitAscending(candidates[0].0, candidates[0].1, Emitted(candidates[1..]), lo, hi);
    }
  }

  // ---------------------------------------------------------------------
  // to_array: generic fields
  // ---------------------------------------------------------------------

  /** The value `to_array` writes under `enum`: the expected list, when it is a non-empty array. */
  function EnumValue(a: ArgData): Value {
    if a.expected.Some? && |a.expected.value| > 0 then List(a.expected.value) else Null
  }

  function CallbackValue(cb: Option<Callback>): Value {
    if cb.Some? then Fn(cb.value) else Null
  }

  function RequiredValue(a: ArgData): Value {
    if a.required.Some? then Bool(a.required.value) else Null
  }

  function DescriptionValue(a: ArgData): Value {
    if a.description != "" then Str(a.description) else Null
  }

  function FormatValue(a: ArgData): Value {
    if a.format.Some? then Str(a.format.value) else Null
  }

  /** The generic candidates of `to_array` in the order it tests them; null ones are not written. */
  function GenericCandidates(a: ArgData, name: Value): Entries {
    Cons("validate_callback", CallbackValue(a.validation),
    Cons("sanitize_callback", CallbackValue(a.sanitization),
    Cons("type", a.typ,
    Cons("required", RequiredValue(a),
    Cons("description", DescriptionValue(a),
    Cons("default", a.defaultValue,
    Cons("format", FormatValue(a),
    Cons("name", name,
    Cons("enum", EnumValue(a), [])))))))))
  }

  /** The conditional inserts of `to_array`, before the type-specific fields are merged in. */
  function GenericFields(a: ArgData): (r: Result<Entries, Exception>)
    ensures r.Success? ==> Ascending(r.value, -1, 9)
    ensures r.Failure? <==> GetName(a).Failure?
  {
    var name :- GetName(a);
    GenericCandidatesAscending(a, name);
    EmittedAscending(GenericCandidates(a, name), -1, 9);
    Success(Emitted(GenericCandidates(a, name)))
  }

  // ---------------------------------------------------------------------
  // Type-specific fields
  // ---------------------------------------------------------------------

  function StringCandidates(minLength: Value, maxLength: Value, pattern: Value): Entries {
    Cons("minLength", minLength, Cons("maxLength", maxLength, Cons("pattern", pattern, [])))
  }

  lemma StringCandidatesAscending(minLength: Value, maxLength: Value, pattern: Value)
    ensures Ascending(StringCandidates(minLength, maxLength, pattern), 8, 21)
  {
    AscendingCons("pattern", pattern, [], 10, 21);
    AscendingCons("maxLength", maxLength, Cons("pattern", pattern, []), 9, 21);
    AscendingCons("minLength", minLength, Cons("maxLength", maxLength, Cons("pattern", pattern, [])), 8, 21);
  }

  function NumericCandidates(multipleOf: Value, minimum: Value, exclusiveMinimum: Value,
                             maximum: Value, exclusiveMaximum: Value): Entries {
    Cons("multipleOf", multipleOf,
    Cons("minimum", minimum,
    Cons("exclusiveMinimum", exclusiveMinimum,
    Cons("maximum", maximum,
    Cons("exclusiveMaximum", exclusiveMaximum, [])))))
  }

  lemma NumericCandidatesAscending(multipleOf: Value, minimum: Value, exclusiveMinimum: Value,
                                   maximum: Value, exclusiveMaximum: Value)
    ensures Ascending(NumericCandidates(multipleOf, minimum, exclusiveMinimum, maximum, exclusiveMaximum), 8, 21)
  {
    var c4 := Cons("exclusiveMaximum", exclusiveMaximum, []);
    AscendingCons("exclusiveMaximum", exclusiveMaximum, [], 15, 21);
    var c3 := Cons("maximum", maximum, c4);
    AscendingCons("maximum", maximum, c4, 14, 21);
    var c2 := Cons("exclusiveMinimum", exclusiveMinimum, c3);
    AscendingCons("exclusiveMinimum", exclusiveMinimum, c3, 13, 21);
    var c1 := Cons("minimum", minimum, c2);
    AscendingCons("minimum", minimum, c2, 12, 21);
    AscendingCons("multipleOf", multipleOf, c1, 8, 21);
  }

  function ArrayCandidates(items: Value, minItems: Value, maxItems: Value, uniqueItems: Value): Entries {
    Cons("items", items, Cons("minItems", minItems, Cons("maxItems", maxItems, Cons("uniqueItems", uniqueItems, []))))
  }

  lemma ArrayCandidatesAscending(items: Value, minItems: Value, maxItems: Value, uniqueItems: Value)
    ensures Ascending(ArrayCandidates(items, minItems, maxItems, uniqueItems), 8, 21)
  {
    var c3 := Cons("uniqueItems", uniqueItems, []);
    AscendingCons("uniqueItems", uniqueItems, [], 19, 21);
    var c2 := Cons("maxItems", maxItems, c3);
    AscendingCons("maxItems", maxItems, c3, 18, 21);
    var c1 := Cons("minItems", minItems, c2);
    AscendingCons("minItems", minItems, c2, 17, 21);
    AscendingCons("items", items, c1, 8, 21);
  }

  /** `string_attributes()`: only a String_Type contributes. */
  function StringFields(a: ArgData): (r: Result<Entries, Exception>)
    ensures r.Success? ==> Ascending(r.value, 8, 21)
    ensures a.kind != StringType ==> r == Success([])
  {
    if a.kind != StringType then Success([])
    else
      var minLength :- TypedAttribute(a, "minLength", TInt);
      var maxLength :- TypedAttribute(a, "maxLength", TInt);
      var pattern :- TypedAttribute(a, "pattern", TString);
      var candidates := StringCandidates(minLength, maxLength, pattern);
      StringCandidatesAscending(minLength, maxLength, pattern);
      EmittedAscending(candidates, 8, 21);
      Success(Emitted(candidates))
  }

  /**
   * `numeric_attributes()`: only an Integer_Type or Number_Type contributes;
   * an exclusive flag is read, and written, only when its bound is set.
   */
  function NumericFields(a: ArgData): (r: Result<Entries, Exception>)
    ensures r.Success? ==> Ascending(r.value, 8, 21)
    ensures !IsNumeric(a.kind) ==> r == Success([])
  {
    if !IsNumeric(a.kind) then Success([])
    else
      var multipleOf :- TypedAttribute(a, "multipleOf", TFloat);
      var minimum :- TypedAttribute(a, "minimum", TInt);
      var exclusiveMinimum :- if minimum != Null then TypedAttribute(a, "exclusiveMinimum", TBool) else Success(Null);
      var maximum :- TypedAttribute(a, "maximum", TInt);
      var exclusiveMaximum :- if maximum != Null then TypedAttribute(a, "exclusiveMaximum", TBool) else Success(Null);
      var candidates := NumericCandidates(multipleOf, minimum, exclusiveMinimum, maximum, exclusiveMaximum);
      NumericCandidatesAscending(multipleOf, minimum, exclusiveMinimum, maximum, exclusiveMaximum);
      EmittedAscending(candidates, 8, 21);
      Success(Emitted(candidates))
  }

  /** The error `new Argument_Parser($v)` raises for an item that is not an Argument. */
  function NotAnArgument(v: Value): Exception {
    TypeErrorOf("Argument_Parser::__construct(): Argument #1 ($argument) must be of type Argument, "
      + ValueTypeName(v) + " given")
  }

  /** Every item sits strictly inside the argument that holds it. */
  lemma ItemsBelow(a: ArgData)
    requires HasItems(a)
    ensures forall i :: 0 <= i < |ItemValues(a.attributes["items"])| ==> ItemValues(a.attributes["items"])[i] < a
  {
    var items := a.attributes["items"];
    assert items < a;
    if items.Assoc? {
      forall i | 0 <= i < |items.entries|
        ensures Values(items.entries)[i] < a
      {
        assert items.entries[i].1 < items.entries[i];
      }
    }
  }

  /** The item maps of `to_array`, serialized with each item's own attribute map. */
  function Attributes(a: ArgData): (r: Result<Entries, Exception>)
    ensures r.Success? ==> Ascending(r.value, -1, 21)
    decreases a, 4
  {
    var generic :- GenericFields(a);
    var typed :- TypeFields(a);
    AscendingUnique(generic, -1, 9);
    AscendingUnique(typed, 8, 21);
    Php.MergeDisjoint(generic, typed);
    AscendingConcat(generic, typed, -1, 9, 21);
    Success(Php.Merge(generic, typed))
  }

  /** `get_type_attributes()`: dispatch on the declared type, compared as a single string. */
  function TypeFields(a: ArgData): (r: Result<Entries, Exception>)
    ensures r.Success? ==> Ascending(r.value, 8, 21)
    decreases a, 3
  {
    if a.typ == Str("string") then StringFields(a)
    else if a.typ == Str("number") || a.typ == Str("integer") then NumericFields(a)
    else if a.typ == Str("array") then ArrayFields(a)
    else Success([])
  }

  /** The `items` value: the parsed items as they are for `allOf`, else wrapped under the relationship name. */
  function ItemsField(rel: Relationship, items: Value): (r: Value)
    ensures rel == AllOf ==> r == items
    ensures rel != AllOf ==> r.Assoc? && r.entries == [(RelationshipName(rel), items)]
  {
    if rel == AllOf then items else Assoc([(RelationshipName(rel), items)])
  }

  /** `array_attributes()`: only an Array_Type contributes. */
  function ArrayFields(a: ArgData): (r: Result<Entries, Exception>)
    ensures r.Success? ==> Ascending(r.value, 8, 21)
    ensures a.kind != ArrayType ==> r == Success([])
    decreases a, 2
  {
    if a.kind != ArrayType then Success([])
    else
      var items :- ParseItems(a);
      var itemsField := if Count(items) == 0 then Null else ItemsField(a.relationship, items);
      var minItems :- TypedAttribute(a, "minItems", TInt);
      var maxItems :- TypedAttribute(a, "maxItems", TInt);
      var uniqueItems :- TypedAttribute(a, "uniqueItems", TBool);
      var candidates := ArrayCandidates(itemsField, minItems, maxItems, uniqueItems);
      ArrayCandidatesAscending(itemsField, minItems, maxItems, uniqueItems);
      EmittedAscending(candidates, 8, 21);
      Success(Emitted(candidates))
  }

  /**
   * `parse_array_items()`: no items give an empty array, a single item its
   * own attribute map, several items the list of their attribute maps.
   */
  function ParseItems(a: ArgData): (r: Result<Value, Exception>)
    ensures r.Success? ==> IsArray(r.value)
    ensures r.Success? && !HasItems(a) ==> r.value == List([])
    decreases a, 1
  {
    if !HasItems(a) then Success(List([]))
    else
      var elems := ItemValues(a.attributes["items"]);
      ItemsBelow(a);
      if ItemCount(a) == 1 then
        match elems[0]
        case Arg(child) =>
          var attrs :- Attributes(child);
          Success(Assoc(attrs))
        case _ => Failure(NotAnArgument(elems[0]))
      else
        var maps :- ParseList(elems, a);
        Success(List(maps))
  }

  /** The `foreach` over several items, appending each item's attribute map. */
  function ParseList(elems: seq<Value>, parent: ArgData): (r: Result<seq<Value>, Exception>)
    requires forall i :: 0 <= i < |elems| ==> elems[i] < parent
    ensures r.Success? ==> |r.value| == |elems|
    ensures r.Success? ==> forall i :: 0 <= i < |elems| ==>
      elems[i].Arg? && Attributes(elems[i].arg).Success? && r.value[i] == Assoc(Attributes(elems[i].arg).value)
    decreases parent, 0, |elems|
  {
    if elems == [] then Success([])
    else
      match elems[0]
      case Arg(child) =>
        var attrs :- Attributes(child);
        var rest :- ParseList(elems[1..], parent);
        Success([Assoc(attrs)] + rest)
      case _ => Failure(NotAnArgument(elems[0]))
  }

  /** `to_array()` (and `as_array`): a one-entry array from the argument's key to its attribute map. */
  function ToArray(a: ArgData): (r: Result<Value, Exception>)
    ensures r.Success? ==> r.value.Assoc? && |r.value.entries| == 1 && r.value.entries[0].0 == a.key
    ensures r.Success? <==> Attributes(a).Success?
    ensures r.Success? ==> r.value.entries[0].1 == Assoc(Attributes(a).value)
    ensures r.Failure? ==> r.error == Attributes(a).error
  {
    var attrs :- Attributes(a);
    Success(Assoc([(a.key, Assoc(attrs))]))
  }
}
