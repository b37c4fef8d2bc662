/**
 * What `Argument_Parser::to_array` promises, stated on the serialized map:
 * which keys appear and when, in which order, and how array items nest.
 */
module ArgumentParserProperties {
  import opened Wrappers
  import opened Errors
  import opened ArgumentData
  import opened ArgumentParser
  import Php

  /** A map entry that is present exactly when the value is non-null. */
  function Presence(v: Value): Option<Value> {
    if v == Null then None else Some(v)
  }

  // ---------------------------------------------------------------------
  // Lookups in the emitted arrays
  // ---------------------------------------------------------------------

  lemma LookupEmit(k: string, v: Value, rest: Entries, k': string)
    requires k != k'
    ensures Php.Lookup(Emit(k, v, rest), k') == Php.Lookup(rest, k')
  {
    if v != Null {
      assert ([(k, v)] + rest)[1..] == rest;
    }
  }

  /** A key ranked outside the bounds of an ascending array is not in it. */
  lemma LookupOutside(es: Entries, lo: int, hi: int, k: string)
    requires Ascending(es, lo, hi)
    requires Rank(k) <= lo || hi <= Rank(k)
    ensures Php.Lookup(es, k) == None
  {
    AscendingUnique(es, lo, hi);
  }

  lemma LookupEmitted(k: string, v: Value, rest: Entries, hi: int)
    requires Ascending(rest, Rank(k), hi)
    ensures Php.Lookup(Emit(k, v, rest), k) == Presence(v)
  {
    if v == Null {
      LookupOutside(rest, Rank(k), hi, k);
    }
  }

  /** The attribute map is the generic fields followed by the type-specific ones. */
  lemma AttributesSplit(a: ArgData)
    requires Attributes(a).Success?
    ensures GenericFields(a).Success? && TypeFields(a).Success?
    ensures Attributes(a).value == GenericFields(a).value + TypeFields(a).value
  {
    var generic, typed := GenericFields(a).value, TypeFields(a).value;
    AscendingUnique(generic, -1, 9);
    AscendingUnique(typed, 8, 21);
    Php.MergeDisjoint(generic, typed);
  }

  /** Keys ranked before the type-specific block are looked up in the generic fields only. */
  lemma LookupGenericPart(a: ArgData, k: string)
    requires Attributes(a).Success?
    requires Rank(k) <= 8
    ensures Php.Lookup(Attributes(a).value, k) == Php.Lookup(GenericFields(a).value, k)
  {
    AttributesSplit(a);
    var generic, typed := GenericFields(a).value, TypeFields(a).value;
    Php.LookupConcat(generic, typed, k);
    LookupOutside(typed, 8, 21, k);
  }

  /** Keys of the type-specific block are looked up in the type-specific fields only. */
  lemma LookupTypedPart(a: ArgData, k: string)
    requires Attributes(a).Success?
    requires Rank(k) >= 9
    ensures Php.Lookup(Attributes(a).value, k) == Php.Lookup(TypeFields(a).value, k)
  {
    AttributesSplit(a);
    var generic, typed := GenericFields(a).value, TypeFields(a).value;
    Php.LookupConcat(generic, typed, k);
    LookupOutside(generic, -1, 9, k);
  }

  /** What a run of conditional inserts holds under `k`: the candidate's value, when it is non-null. */
  function Written(candidate: Option<Value>): Option<Value> {
    if candidate.Some? then Presence(candidate.value) else None
  }

  lemma LookupCons(k: string, v: Value, rest: Entries, k': string)
    ensures Php.Lookup(Cons(k, v, rest), k') == if k == k' then Some(v) else Php.Lookup(rest, k')
  {
    assert Cons(k, v, rest)[0] == (k, v);
    assert Cons(k, v, rest)[1..] == rest;
  }

  /** Filtering ascending candidates keeps exactly the non-null ones, each under its own key. */
  lemma {:induction false} LookupEmittedCandidates(c: Entries, lo: int, hi: int, k: string)
    requires Ascending(c, lo, hi)
    ensures Php.Lookup(Emitted(c), k) == Written(Php.Lookup(c, k))
    decreases |c|
  {
    if c != [] {
      var k0, v0, rest := c[0].0, c[0].1, c[1..];
      assert c == Cons(k0, v0, rest);
      LookupCons(k0, v0, rest, k);
      EmittedAscending(rest, Rank(k0), hi);
      if k == k0 {
        LookupEmitted(k0, v0, Emitted(rest), hi);
      } else {
        LookupEmit(k0, v0, Emitted(rest), k);
        LookupEmittedCandidates(rest, Rank(k0), hi, k);
      }
    }
  }

  /** Keys of the generic block are looked up among the generic candidates. */
  lemma GenericLookup(a: ArgData, k: string)
    requires Attributes(a).Success?
    requires Rank(k) <= 8
    ensures GetName(a).Success?
    ensures Php.Lookup(Attributes(a).value, k) == Written(Php.Lookup(GenericCandidates(a, GetName(a).value), k))
  {
    LookupGenericPart(a, k);
    var name := GetName(a).value;
    GenericCandidatesAscending(a, name);
    LookupEmittedCandidates(GenericCandidates(a, name), -1, 9, k);
  }

  /**
   * The generic block of `to_array`: both callbacks when set, `type` and
   * `default` when non-null, `required` whenever the tri-state is set (so an
   * explicit false is written), `description` when non-empty, `format` and
   * `name` when set, and `enum` only for a non-empty expected list.
   */
  lemma GenericEmission(a: ArgData)
    requires Attributes(a).Success?
    ensures var attrs := Attributes(a).value;
      && Php.Lookup(attrs, "validate_callback") == (if a.validation.Some? then Some(Fn(a.validation.value)) else None)
      && Php.Lookup(attrs, "sanitize_callback") == (if a.sanitization.Some? then Some(Fn(a.sanitization.value)) else None)
      && Php.Lookup(attrs, "type") == Presence(a.typ)
      && Php.Lookup(attrs, "required") == (if a.required.Some? then Some(Bool(a.required.value)) else None)
      && Php.Lookup(attrs, "description") == (if a.description == "" then None else Some(Str(a.description)))
      && Php.Lookup(attrs, "default") == Presence(a.defaultValue)
      && Php.Lookup(attrs, "format") == (if a.format.Some? then Some(Str(a.format.value)) else None)
      && Php.Lookup(attrs, "name") == Presence(GetAttribute(a, "name", Null))
      && Php.Lookup(attrs, "enum") ==
           (if a.expected.Some? && a.expected.value != [] then Some(List(a.expected.value)) else None)
  {
    ValidateCallbackEmission(a);
    SanitizeCallbackEmission(a);
    TypeEmission(a);
    RequiredEmission(a);
    DescriptionEmission(a);
    DefaultEmission(a);
    FormatEmission(a);
    NameEmission(a);
    EnumEmission(a);
  }

  /** `validate_callback` is written exactly when a validation callback is set. */
  lemma ValidateCallbackEmission(a: ArgData)
    requires Attributes(a).Success?
    ensures Php.Lookup(Attributes(a).value, "validate_callback") == (if a.validation.Some? then Some(Fn(a.validation.value)) else None)
  {
    GenericLookup(a, "validate_callback");
    var name := GetName(a).value;
    GenericCandidateLookups(a, name);
    assert Php.Lookup(GenericCandidates(a, name), "validate_callback") == Some(CallbackValue(a.validation));
  }

  /** `sanitize_callback` is written exactly when a sanitization callback is set. */
  lemma SanitizeCallbackEmission(a: ArgData)
    requires Attributes(a).Success?
    ensures Php.Lookup(Attributes(a).value, "sanitize_callback") == (if a.sanitization.Some? then Some(Fn(a.sanitization.value)) else None)
  {
    GenericLookup(a, "sanitize_callback");
    var name := GetName(a).value;
    GenericCandidateLookups(a, name);
    assert Php.Lookup(GenericCandidates(a, name), "sanitize_callback") == Some(CallbackValue(a.sanitization));
  }

  /** `type` is written exactly when the type is non-null, as stored (a name or a list of names). */
  lemma TypeEmission(a: ArgData)
    requires Attributes(a).Success?
    ensures Php.Lookup(Attributes(a).value, "type") == Presence(a.typ)
  {
    GenericLookup(a, "type");
    var name := GetName(a).value;
    GenericCandidateLookups(a, name);
    assert Php.Lookup(GenericCandidates(a, name), "type") == Some(a.typ);
  }

  /** `required` is written whenever the tri-state is set, so an explicit false is written too. */
  lemma RequiredEmission(a: ArgData)
    requires Attributes(a).Success?
    ensures Php.Lookup(Attributes(a).value, "required") == (if a.required.Some? then Some(Bool(a.required.value)) else None)
  {
    GenericLookup(a, "required");
    var name := GetName(a).value;
    GenericCandidateLookups(a, name);
    assert Php.Lookup(GenericCandidates(a, name), "required") == Some(RequiredValue(a));
  }

  /** `description` is written only when non-empty. */
  lemma DescriptionEmission(a: ArgData)
    requires Attributes(a).Success?
    ensures Php.Lookup(Attributes(a).value, "description") == (if a.description == "" then None else Some(Str(a.description)))
  {
    GenericLookup(a, "description");
    var name := GetName(a).value;
    GenericCandidateLookups(a, name);
    assert Php.Lookup(GenericCandidates(a, name), "description") == Some(DescriptionValue(a));
  }

  /** `default` is written exactly when the default is non-null. */
  lemma DefaultEmission(a: ArgData)
    requires Attributes(a).Success?
    ensures Php.Lookup(Attributes(a).value, "default") == Presence(a.defaultValue)
  {
    GenericLookup(a, "default");
    var name := GetName(a).value;
    GenericCandidateLookups(a, name);
    assert Php.Lookup(GenericCandidates(a, name), "default") == Some(a.defaultValue);
  }

  /** `format` is written exactly when a format is set. */
  lemma FormatEmission(a: ArgData)
    requires Attributes(a).Success?
    ensures Php.Lookup(Attributes(a).value, "format") == (if a.format.Some? then Some(Str(a.format.value)) else None)
  {
    GenericLookup(a, "format");
    var name := GetName(a).value;
    GenericCandidateLookups(a, name);
    assert Php.Lookup(GenericCandidates(a, name), "format") == Some(FormatValue(a));
  }

  /** `name` is written exactly when the `name` attribute is non-null. */
  lemma NameEmission(a: ArgData)
    requires Attributes(a).Success?
    ensures Php.Lookup(Attributes(a).value, "name") == Presence(GetAttribute(a, "name", Null))
  {
    GenericLookup(a, "name");
    var name := GetName(a).value;
    GenericCandidateLookups(a, name);
    assert Php.Lookup(GenericCandidates(a, name), "name") == Some(name);
  }

  /** `enum` is written only for a non-empty expected list. */
  lemma EnumEmission(a: ArgData)
    requires Attributes(a).Success?
    ensures Php.Lookup(Attributes(a).value, "enum") ==
      (if a.expected.Some? && a.expected.value != [] then Some(List(a.expected.value)) else None)
  {
    GenericLookup(a, "enum");
    var name := GetName(a).value;
    GenericCandidateLookups(a, name);
    assert Php.Lookup(GenericCandidates(a, name), "enum") == Some(EnumValue(a));
  }

  /** Each generic key finds its own candidate. */
  lemma GenericCandidateLookups(a: ArgData, name: Value)
    ensures var c := GenericCandidates(a, name);
      && Php.Lookup(c, "validate_callback") == Some(CallbackValue(a.validation))
      && Php.Lookup(c, "sanitize_callback") == Some(CallbackValue(a.sanitization))
      && Php.Lookup(c, "type") == Some(a.typ)
      && Php.Lookup(c, "required") == Some(RequiredValue(a))
      && Php.Lookup(c, "description") == Some(DescriptionValue(a))
      && Php.Lookup(c, "default") == Some(a.defaultValue)
      && Php.Lookup(c, "format") == Some(FormatValue(a))
      && Php.Lookup(c, "name") == Some(name)
      && Php.Lookup(c, "enum") == Some(EnumValue(a))
  {
    var c8 := Cons("enum", EnumValue(a), []);
    var c7 := Cons("name", name, c8);
    var c6 := Cons("format", FormatValue(a), c7);
    var c5 := Cons("default", a.defaultValue, c6);
    var c4 := Cons("description", DescriptionValue(a), c5);
    var c3 := Cons("required", RequiredValue(a), c4);
    var c2 := Cons("type", a.typ, c3);
    var c1 := Cons("sanitize_callback", CallbackValue(a.sanitization), c2);
    var c0 := Cons("validate_callback", CallbackValue(a.validation), c1);
    // "validate_callback"
    LookupCons("validate_callback", CallbackValue(a.validation), c1, "validate_callback");
    // "sanitize_callback"
    LookupCons("validate_callback", CallbackValue(a.validation), c1, "sanitize_callback");
    LookupCons("sanitize_callback", CallbackValue(a.sanitization), c2, "sanitize_callback");
    // "type"
    LookupCons("validate_callback", CallbackValue(a.validation), c1, "type");
    LookupCons("sanitize_callback", CallbackValue(a.sanitization), c2, "type");
    LookupCons("type", a.typ, c3, "type");
    // "required"
    LookupCons("validate_callback", CallbackValue(a.validation), c1, "required");
    LookupCons("sanitize_callback", CallbackValue(a.sanitization), c2, "required");
    LookupCons("type", a.typ, c3, "required");
    LookupCons("required", RequiredValue(a), c4, "required");
    // "description"
    LookupCons("validate_callback", CallbackValue(a.validation), c1, "description");
    LookupCons("sanitize_callback", CallbackValue(a.sanitization), c2, "description");
    LookupCons("type", a.typ, c3, "description");
    LookupCons("required", RequiredValue(a), c4, "description");
    LookupCons("description", DescriptionValue(a), c5, "description");
    // "default"
    LookupCons("validate_callback", CallbackValue(a.validation), c1, "default");
    LookupCons("sanitize_callback", CallbackValue(a.sanitization), c2, "default");
    LookupCons("type", a.typ, c3, "default");
    LookupCons("required", RequiredValue(a), c4, "default");
    LookupCons("description", DescriptionValue(a), c5, "default");
    LookupCons("default", a.defaultValue, c6, "default");
    // "format"
    LookupCons("validate_callback", CallbackValue(a.validation), c1, "format");
    LookupCons("sanitize_callback", CallbackValue(a.sanitization), c2, "format");
    LookupCons("type", a.typ, c3, "format");
    LookupCons("required", RequiredValue(a), c4, "format");
    LookupCons("description", DescriptionValue(a), c5, "format");
    LookupCons("default", a.defaultValue, c6, "format");
    LookupCons("format", FormatValue(a), c7, "format");
    // "name"
    LookupCons("validate_callback", CallbackValue(a.validation), c1, "name");
    LookupCons("sanitize_callback", CallbackValue(a.sanitization), c2, "name");
    LookupCons("type", a.typ, c3, "name");
    LookupCons("required", RequiredValue(a), c4, "name");
    LookupCons("description", DescriptionValue(a), c5, "name");
    LookupCons("default", a.defaultValue, c6, "name");
    LookupCons("format", FormatValue(a), c7, "name");
    LookupCons("name", name, c8, "name");
    // "enum"
    LookupCons("validate_callback", CallbackValue(a.validation), c1, "enum");
    LookupCons("sanitize_callback", CallbackValue(a.sanitization), c2, "enum");
    LookupCons("type", a.typ, c3, "enum");
    LookupCons("required", RequiredValue(a), c4, "enum");
    LookupCons("description", DescriptionValue(a), c5, "enum");
    LookupCons("default", a.defaultValue, c6, "enum");
    LookupCons("format", FormatValue(a), c7, "enum");
    LookupCons("name", name, c8, "enum");
    LookupCons("enum", EnumValue(a), [], "enum");
  }

  // ---------------------------------------------------------------------
  // Type-specific fields
  // ---------------------------------------------------------------------

  /** A getter declared `?int`, `?string` or `?bool` that did not throw returns the stored value itself. */
  lemma TypedAttributeIsStored(a: ArgData, k: string, t: PhpType)
    requires t != TFloat && TypedAttribute(a, k, t).Success?
    ensures TypedAttribute(a, k, t).value == GetAttribute(a, k, Null)
  {
  }

  /** The string block: `minLength`, `maxLength` and `pattern`, each written exactly when stored non-null. */
  lemma StringEmission(a: ArgData)
    requires Attributes(a).Success?
    requires a.typ == Str("string") && a.kind == StringType
    ensures var attrs := Attributes(a).value;
      && Php.Lookup(attrs, "minLength") == Presence(GetAttribute(a, "minLength", Null))
      && Php.Lookup(attrs, "maxLength") == Presence(GetAttribute(a, "maxLength", Null))
      && Php.Lookup(attrs, "pattern") == Presence(GetAttribute(a, "pattern", Null))
  {
    AttributesSplit(a);
    var minLength, maxLength, pattern :=
      TypedAttribute(a, "minLength", TInt).value, TypedAttribute(a, "maxLength", TInt).value,
      TypedAttribute(a, "pattern", TString).value;
    TypedAttributeIsStored(a, "minLength", TInt);
    TypedAttributeIsStored(a, "maxLength", TInt);
    TypedAttributeIsStored(a, "pattern", TString);
    var c := StringCandidates(minLength, maxLength, pattern);
    assert TypeFields(a).value == Emitted(c);
    StringCandidatesAscending(minLength, maxLength, pattern);
    var c2 := Cons("pattern", pattern, []);
    var c1 := Cons("maxLength", maxLength, c2);
    LookupCons("minLength", minLength, c1, "minLength");
    LookupCons("minLength", minLength, c1, "maxLength");
    LookupCons("maxLength", maxLength, c2, "maxLength");
    LookupCons("minLength", minLength, c1, "pattern");
    LookupCons("maxLength", maxLength, c2, "pattern");
    LookupCons("pattern", pattern, [], "pattern");
    LookupTypedPart(a, "minLength");
    LookupTypedPart(a, "maxLength");
    LookupTypedPart(a, "pattern");
    LookupEmittedCandidates(c, 8, 21, "minLength");
    LookupEmittedCandidates(c, 8, 21, "maxLength");
    LookupEmittedCandidates(c, 8, 21, "pattern");
  }

  /** The numeric block as the parser builds it, for an argument whose numeric getters did not throw. */
  lemma NumericLookup(a: ArgData, k: string)
    requires NumericFields(a).Success? && IsNumeric(a.kind)
    ensures TypedAttribute(a, "multipleOf", TFloat).Success?
    ensures TypedAttribute(a, "minimum", TInt).Success? && TypedAttribute(a, "maximum", TInt).Success?
    ensures var minimum, maximum := GetAttribute(a, "minimum", Null), GetAttribute(a, "maximum", Null);
      && (minimum != Null ==> TypedAttribute(a, "exclusiveMinimum", TBool).Success?)
      && (maximum != Null ==> TypedAttribute(a, "exclusiveMaximum", TBool).Success?)
      && Php.Lookup(NumericFields(a).value, k) == Written(Php.Lookup(NumericCandidates(
           TypedAttribute(a, "multipleOf", TFloat).value,
           minimum,
           if minimum != Null then GetAttribute(a, "exclusiveMinimum", Null) else Null,
           maximum,
           if maximum != Null then GetAttribute(a, "exclusiveMaximum", Null) else Null), k))
  {
    TypedAttributeIsStored(a, "minimum", TInt);
    TypedAttributeIsStored(a, "maximum", TInt);
    var minimum, maximum := GetAttribute(a, "minimum", Null), GetAttribute(a, "maximum", Null);
    if minimum != Null {
      TypedAttributeIsStored(a, "exclusiveMinimum", TBool);
    }
    if maximum != Null {
      TypedAttributeIsStored(a, "exclusiveMaximum", TBool);
    }
    var multipleOf := TypedAttribute(a, "multipleOf", TFloat).value;
    var exclusiveMinimum := if minimum != Null then GetAttribute(a, "exclusiveMinimum", Null) else Null;
    var exclusiveMaximum := if maximum != Null then GetAttribute(a, "exclusiveMaximum", Null) else Null;
    var c := NumericCandidates(multipleOf, minimum, exclusiveMinimum, maximum, exclusiveMaximum);
    assert NumericFields(a).value == Emitted(c);
    NumericCandidatesAscending(multipleOf, minimum, exclusiveMinimum, maximum, exclusiveMaximum);
    LookupEmittedCandidates(c, 8, 21, k);
  }

  /** For a number or integer argument, type-specific keys are looked up in the numeric block. */
  lemma NumericPart(a: ArgData, k: string)
    requires Attributes(a).Success?
    requires (a.typ == Str("number") || a.typ == Str("integer")) && IsNumeric(a.kind)
    requires Rank(k) >= 9
    ensures NumericFields(a).Success?
    ensures Php.Lookup(Attributes(a).value, k) == Php.Lookup(NumericFields(a).value, k)
  {
    LookupTypedPart(a, k);
    assert TypeFields(a) == NumericFields(a);
  }

  /** Each numeric key finds its own candidate. */
  lemma NumericCandidateLookups(multipleOf: Value, minimum: Value, exclusiveMinimum: Value,
                                maximum: Value, exclusiveMaximum: Value)
    ensures var c := NumericCandidates(multipleOf, minimum, exclusiveMinimum, maximum, exclusiveMaximum);
      && Php.Lookup(c, "multipleOf") == Some(multipleOf)
      && Php.Lookup(c, "minimum") == Some(minimum)
      && Php.Lookup(c, "exclusiveMinimum") == Some(exclusiveMinimum)
      && Php.Lookup(c, "maximum") == Some(maximum)
      && Php.Lookup(c, "exclusiveMaximum") == Some(exclusiveMaximum)
  {
    var c4 := Cons("exclusiveMaximum", exclusiveMaximum, []);
    var c3 := Cons("maximum", maximum, c4);
    var c2 := Cons("exclusiveMinimum", exclusiveMinimum, c3);
    var c1 := Cons("minimum", minimum, c2);
    LookupCons("multipleOf", multipleOf, c1, "multipleOf");
    LookupCons("multipleOf", multipleOf, c1, "minimum");
    LookupCons("minimum", minimum, c2, "minimum");
    LookupCons("multipleOf", multipleOf, c1, "exclusiveMinimum");
    LookupCons("minimum", minimum, c2, "exclusiveMinimum");
    LookupCons("exclusiveMinimum", exclusiveMinimum, c3, "exclusiveMinimum");
    LookupCons("multipleOf", multipleOf, c1, "maximum");
    LookupCons("minimum", minimum, c2, "maximum");
    LookupCons("exclusiveMinimum", exclusiveMinimum, c3, "maximum");
    LookupCons("maximum", maximum, c4, "maximum");
    LookupCons("multipleOf", multipleOf, c1, "exclusiveMaximum");
    LookupCons("minimum", minimum, c2, "exclusiveMaximum");
    LookupCons("exclusiveMinimum", exclusiveMinimum, c3, "exclusiveMaximum");
    LookupCons("maximum", maximum, c4, "exclusiveMaximum");
    LookupCons("exclusiveMaximum", exclusiveMaximum, [], "exclusiveMaximum");
  }

  /**
   * `multipleOf` is written exactly when stored non-null, as the float the
   * getter returns.
   */
  lemma MultipleOfEmission(a: ArgData)
    requires Attributes(a).Success?
    requires (a.typ == Str("number") || a.typ == Str("integer")) && IsNumeric(a.kind)
    ensures TypedAttribute(a, "multipleOf", TFloat).Success?
    ensures Php.Lookup(Attributes(a).value, "multipleOf") == Presence(TypedAttribute(a, "multipleOf", TFloat).value)
    ensures Php.Lookup(Attributes(a).value, "multipleOf").Some? <==> GetAttribute(a, "multipleOf", Null) != Null
  {
    NumericPart(a, "multipleOf");
    NumericLookup(a, "multipleOf");
    var minimum, maximum := GetAttribute(a, "minimum", Null), GetAttribute(a, "maximum", Null);
    var multipleOf := TypedAttribute(a, "multipleOf", TFloat).value;
    var exclusiveMinimum := if minimum != Null then GetAttribute(a, "exclusiveMinimum", Null) else Null;
    var exclusiveMaximum := if maximum != Null then GetAttribute(a, "exclusiveMaximum", Null) else Null;
    NumericCandidateLookups(multipleOf, minimum, exclusiveMinimum, maximum, exclusiveMaximum);
    var c := NumericCandidates(multipleOf, minimum, exclusiveMinimum, maximum, exclusiveMaximum);
    assert Php.Lookup(c, "multipleOf") == Some(multipleOf);
  }


  /** `minimum` is written exactly when stored non-null. */
  lemma MinimumEmission(a: ArgData)
    requires Attributes(a).Success?
    requires (a.typ == Str("number") || a.typ == Str("integer")) && IsNumeric(a.kind)
    ensures Php.Lookup(Attributes(a).value, "minimum") == Presence(GetAttribute(a, "minimum", Null))
  {
    NumericPart(a, "minimum");
    NumericLookup(a, "minimum");
    var minimum, maximum := GetAttribute(a, "minimum", Null), GetAttribute(a, "maximum", Null);
    var multipleOf := TypedAttribute(a, "multipleOf", TFloat).value;
    var exclusiveMinimum := if minimum != Null then GetAttribute(a, "exclusiveMinimum", Null) else Null;
    var exclusiveMaximum := if maximum != Null then GetAttribute(a, "exclusiveMaximum", Null) else Null;
    NumericCandidateLookups(multipleOf, minimum, exclusiveMinimum, maximum, exclusiveMaximum);
    var c := NumericCandidates(multipleOf, minimum, exclusiveMinimum, maximum, exclusiveMaximum);
    assert Php.Lookup(c, "minimum") == Some(minimum);
  }

  /** `exclusiveMinimum` is written only alongside `minimum`, and only when the flag is stored non-null. */
  lemma ExclusiveMinimumEmission(a: ArgData)
    requires Attributes(a).Success?
    requires (a.typ == Str("number") || a.typ == Str("integer")) && IsNumeric(a.kind)
    ensures Php.Lookup(Attributes(a).value, "exclusiveMinimum") ==
      if GetAttribute(a, "minimum", Null) == Null then None else Presence(GetAttribute(a, "exclusiveMinimum", Null))
  {
    NumericPart(a, "exclusiveMinimum");
    NumericLookup(a, "exclusiveMinimum");
    var minimum, maximum := GetAttribute(a, "minimum", Null), GetAttribute(a, "maximum", Null);
    var multipleOf := TypedAttribute(a, "multipleOf", TFloat).value;
    var exclusiveMinimum := if minimum != Null then GetAttribute(a, "exclusiveMinimum", Null) else Null;
    var exclusiveMaximum := if maximum != Null then GetAttribute(a, "exclusiveMaximum", Null) else Null;
    NumericCandidateLookups(multipleOf, minimum, exclusiveMinimum, maximum, exclusiveMaximum);
    var c := NumericCandidates(multipleOf, minimum, exclusiveMinimum, maximum, exclusiveMaximum);
    assert Php.Lookup(c, "exclusiveMinimum") == Some(exclusiveMinimum);
  }

  /** `maximum` is written exactly when stored non-null. */
  lemma MaximumEmission(a: ArgData)
    requires Attributes(a).Success?
    requires (a.typ == Str("number") || a.typ == Str("integer")) && IsNumeric(a.kind)
    ensures Php.Lookup(Attributes(a).value, "maximum") == Presence(GetAttribute(a, "maximum", Null))
  {
    NumericPart(a, "maximum");
    NumericLookup(a, "maximum");
    var minimum, maximum := GetAttribute(a, "minimum", Null), GetAttribute(a, "maximum", Null);
    var multipleOf := TypedAttribute(a, "multipleOf", TFloat).value;
    var exclusiveMinimum := if minimum != Null then GetAttribute(a, "exclusiveMinimum", Null) else Null;
    var exclusiveMaximum := if maximum != Null then GetAttribute(a, "exclusiveMaximum", Null) else Null;
    NumericCandidateLookups(multipleOf, minimum, exclusiveMinimum, maximum, exclusiveMaximum);
    var c := NumericCandidates(multipleOf, minimum, exclusiveMinimum, maximum, exclusiveMaximum);
    assert Php.Lookup(c, "maximum") == Some(maximum);
  }

  /** `exclusiveMaximum` is written only alongside `maximum`, and only when the flag is stored non-null. */
  lemma ExclusiveMaximumEmission(a: ArgData)
    requires Attributes(a).Success?
    requires (a.typ == Str("number") || a.typ == Str("integer")) && IsNumeric(a.kind)
    ensures Php.Lookup(Attributes(a).value, "exclusiveMaximum") ==
      if GetAttribute(a, "maximum", Null) == Null then None else Presence(GetAttribute(a, "exclusiveMaximum", Null))
  {
    NumericPart(a, "exclusiveMaximum");
    NumericLookup(a, "exclusiveMaximum");
    var minimum, maximum := GetAttribute(a, "minimum", Null), GetAttribute(a, "maximum", Null);
    var multipleOf := TypedAttribute(a, "multipleOf", TFloat).value;
    var exclusiveMinimum := if minimum != Null then GetAttribute(a, "exclusiveMinimum", Null) else Null;
    var exclusiveMaximum := if maximum != Null then GetAttribute(a, "exclusiveMaximum", Null) else Null;
    NumericCandidateLookups(multipleOf, minimum, exclusiveMinimum, maximum, exclusiveMaximum);
    var c := NumericCandidates(multipleOf, minimum, exclusiveMinimum, maximum, exclusiveMaximum);
    assert Php.Lookup(c, "exclusiveMaximum") == Some(exclusiveMaximum);
  }

  /** For an array argument, type-specific keys are looked up in the array block. */
  lemma ArrayPart(a: ArgData, k: string)
    requires Attributes(a).Success?
    requires a.typ == Str("array") && a.kind == ArrayType
    requires Rank(k) >= 9
    ensures ArrayFields(a).Success?
    ensures Php.Lookup(Attributes(a).value, k) == Php.Lookup(ArrayFields(a).value, k)
  {
    LookupTypedPart(a, k);
    assert TypeFields(a) == ArrayFields(a);
  }

  /** The `items` value `array_attributes()` considers: null when the parsed items are empty. */
  function ItemsCandidate(a: ArgData, items: Value): Value {
    if Count(items) == 0 then Null else ItemsField(a.relationship, items)
  }

  /** The array block as the parser builds it, for an argument whose array getters did not throw. */
  lemma ArrayLookup(a: ArgData, k: string)
    requires ArrayFields(a).Success? && a.kind == ArrayType
    ensures ParseItems(a).Success?
    ensures TypedAttribute(a, "minItems", TInt).Success? && TypedAttribute(a, "maxItems", TInt).Success?
    ensures TypedAttribute(a, "uniqueItems", TBool).Success?
    ensures Php.Lookup(ArrayFields(a).value, k) == Written(Php.Lookup(ArrayCandidates(
      ItemsCandidate(a, ParseItems(a).value),
      GetAttribute(a, "minItems", Null), GetAttribute(a, "maxItems", Null), GetAttribute(a, "uniqueItems", Null)), k))
  {
    TypedAttributeIsStored(a, "minItems", TInt);
    TypedAttributeIsStored(a, "maxItems", TInt);
    TypedAttributeIsStored(a, "uniqueItems", TBool);
    var items := ItemsCandidate(a, ParseItems(a).value);
    var minItems, maxItems, uniqueItems :=
      GetAttribute(a, "minItems", Null), GetAttribute(a, "maxItems", Null), GetAttribute(a, "uniqueItems", Null);
    var c := ArrayCandidates(items, minItems, maxItems, uniqueItems);
    assert ArrayFields(a).value == Emitted(c);
    ArrayCandidatesAscending(items, minItems, maxItems, uniqueItems);
    LookupEmittedCandidates(c, 8, 21, k);
  }

  /** Each array key finds its own candidate. */
  lemma ArrayCandidateLookups(items: Value, minItems: Value, maxItems: Value, uniqueItems: Value)
    ensures var c := ArrayCandidates(items, minItems, maxItems, uniqueItems);
      && Php.Lookup(c, "items") == Some(items)
      && Php.Lookup(c, "minItems") == Some(minItems)
      && Php.Lookup(c, "maxItems") == Some(maxItems)
      && Php.Lookup(c, "uniqueItems") == Some(uniqueItems)
  {
    var c3 := Cons("uniqueItems", uniqueItems, []);
    var c2 := Cons("maxItems", maxItems, c3);
    var c1 := Cons("minItems", minItems, c2);
    LookupCons("items", items, c1, "items");
    LookupCons("items", items, c1, "minItems");
    LookupCons("minItems", minItems, c2, "minItems");
    LookupCons("items", items, c1, "maxItems");
    LookupCons("minItems", minItems, c2, "maxItems");
    LookupCons("maxItems", maxItems, c3, "maxItems");
    LookupCons("items", items, c1, "uniqueItems");
    LookupCons("minItems", minItems, c2, "uniqueItems");
    LookupCons("maxItems", maxItems, c3, "uniqueItems");
    LookupCons("uniqueItems", uniqueItems, [], "uniqueItems");
  }

  /** `items` is written only when the parsed items are non-empty: as they are under `allOf`, else wrapped under the relationship name. */
  lemma ItemsEmission(a: ArgData)
    requires Attributes(a).Success?
    requires a.typ == Str("array") && a.kind == ArrayType
    ensures ParseItems(a).Success?
    ensures Php.Lookup(Attributes(a).value, "items") ==
      if Count(ParseItems(a).value) == 0 then None else Some(ItemsField(a.relationship, ParseItems(a).value))
  {
    ArrayPart(a, "items");
    ArrayLookup(a, "items");
    var parsed := ParseItems(a).value;
    var items := ItemsCandidate(a, parsed);
    var minItems, maxItems, uniqueItems :=
      GetAttribute(a, "minItems", Null), GetAttribute(a, "maxItems", Null), GetAttribute(a, "uniqueItems", Null);
    assert Php.Lookup(ArrayCandidates(items, minItems, maxItems, uniqueItems), "items") == Some(items) by {
      ArrayCandidateLookups(items, minItems, maxItems, uniqueItems);
    }
    assert items == Null <==> Count(parsed) == 0;
  }

  /** `minItems` is written exactly when stored non-null. */
  lemma MinItemsEmission(a: ArgData)
    requires Attributes(a).Success?
    requires a.typ == Str("array") && a.kind == ArrayType
    ensures Php.Lookup(Attributes(a).value, "minItems") == Presence(GetAttribute(a, "minItems", Null))
  {
    ArrayPart(a, "minItems");
    ArrayLookup(a, "minItems");
    var items := ItemsCandidate(a, ParseItems(a).value);
    var minItems, maxItems, uniqueItems :=
      GetAttribute(a, "minItems", Null), GetAttribute(a, "maxItems", Null), GetAttribute(a, "uniqueItems", Null);
    ArrayCandidateLookups(items, minItems, maxItems, uniqueItems);
    assert Php.Lookup(ArrayCandidates(items, minItems, maxItems, uniqueItems), "minItems") == Some(minItems);
  }

  /** `maxItems` is written exactly when stored non-null. */
  lemma MaxItemsEmission(a: ArgData)
    requires Attributes(a).Success?
    requires a.typ == Str("array") && a.kind == ArrayType
    ensures Php.Lookup(Attributes(a).value, "maxItems") == Presence(GetAttribute(a, "maxItems", Null))
  {
    ArrayPart(a, "maxItems");
    ArrayLookup(a, "maxItems");
    var items := ItemsCandidate(a, ParseItems(a).value);
    var minItems, maxItems, uniqueItems :=
      GetAttribute(a, "minItems", Null), GetAttribute(a, "maxItems", Null), GetAttribute(a, "uniqueItems", Null);
    ArrayCandidateLookups(items, minItems, maxItems, uniqueItems);
    assert Php.Lookup(ArrayCandidates(items, minItems, maxItems, uniqueItems), "maxItems") == Some(maxItems);
  }

  /** `uniqueItems` is written exactly when stored non-null. */
  lemma UniqueItemsEmission(a: ArgData)
    requires Attributes(a).Success?
    requires a.typ == Str("array") && a.kind == ArrayType
    ensures Php.Lookup(Attributes(a).value, "uniqueItems") == Presence(GetAttribute(a, "uniqueItems", Null))
  {
    ArrayPart(a, "uniqueItems");
    ArrayLookup(a, "uniqueItems");
    var items := ItemsCandidate(a, ParseItems(a).value);
    var minItems, maxItems, uniqueItems :=
      GetAttribute(a, "minItems", Null), GetAttribute(a, "maxItems", Null), GetAttribute(a, "uniqueItems", Null);
    ArrayCandidateLookups(items, minItems, maxItems, uniqueItems);
    assert Php.Lookup(ArrayCandidates(items, minItems, maxItems, uniqueItems), "uniqueItems") == Some(uniqueItems);
  }

  // ---------------------------------------------------------------------
  // Array items
  // ---------------------------------------------------------------------

  /**
   * `parse_array_items()`: no items give an empty array; one item gives that
   * item's own attribute map; two or more give the list of their attribute
   * maps, one per item, in insertion order.
   */
  lemma ParseItemsShape(a: ArgData)
    requires ParseItems(a).Success?
    ensures !HasItems(a) ==> ParseItems(a).value == List([])
    ensures HasItems(a) ==> |ItemValues(a.attributes["items"])| == ItemCount(a)
    ensures ItemCount(a) == 1 ==>
      var item := ItemValues(a.attributes["items"])[0];
      item.Arg? && Attributes(item.arg).Success? && ParseItems(a).value == Assoc(Attributes(item.arg).value)
    ensures HasItems(a) && ItemCount(a) != 1 ==>
      var items, r := ItemValues(a.attributes["items"]), ParseItems(a).value;
      r.List? && |r.elems| == ItemCount(a) &&
      forall i :: 0 <= i < |items| ==>
        items[i].Arg? && Attributes(items[i].arg).Success? && r.elems[i] == Assoc(Attributes(items[i].arg).value)
  {
  }

  /** Items fail to serialize exactly when one of them is not an argument or fails itself. */
  lemma {:induction false} ParseListFails(elems: seq<Value>, parent: ArgData)
    requires forall i :: 0 <= i < |elems| ==> elems[i] < parent
    ensures ParseList(elems, parent).Failure? <==>
      exists i :: 0 <= i < |elems| && (!elems[i].Arg? || Attributes(elems[i].arg).Failure?)
    decreases |elems|
  {
    if elems != [] {
      ParseListFails(elems[1..], parent);
      if ParseList(elems, parent).Failure? && elems[0].Arg? && Attributes(elems[0].arg).Success? {
        var i :| 0 <= i < |elems[1..]| && (!elems[1..][i].Arg? || Attributes(elems[1..][i].arg).Failure?);
        assert elems[i + 1] == elems[1..][i];
      }
      if ParseList(elems, parent).Success? {
        forall i | 0 <= i < |elems|
          ensures elems[i].Arg? && Attributes(elems[i].arg).Success?
        {
        }
      }
    }
  }

  // ---------------------------------------------------------------------
  // Whole arguments
  // ---------------------------------------------------------------------

  /** The type-specific block is empty unless the declared type and the class agree. */
  lemma TypeFieldsNeedMatchingClass(a: ArgData)
    requires TypeFields(a).Success? && TypeFields(a).value != []
    ensures || (a.typ == Str("string") && a.kind == StringType)
            || ((a.typ == Str("number") || a.typ == Str("integer")) && IsNumeric(a.kind))
            || (a.typ == Str("array") && a.kind == ArrayType)
  {
  }

  lemma EmittedCons(k: string, v: Value, rest: Entries)
    ensures Emitted(Cons(k, v, rest)) == Emit(k, v, Emitted(rest))
  {
    assert Cons(k, v, rest)[0] == (k, v);
    assert Cons(k, v, rest)[1..] == rest;
  }

  /** A fresh argument writes only its type in the generic block. */
  lemma FreshGenericFields(kind: Kind, key: string)
    ensures GenericFields(Fresh(kind, key)) == Success(if kind == Base then [] else [("type", Str(TypeName(kind)))])
  {
    var a := Fresh(kind, key);
    assert GetName(a) == Success(Null);
    var c8 := Cons("enum", Null, []);
    var c7 := Cons("name", Null, c8);
    var c6 := Cons("format", Null, c7);
    var c5 := Cons("default", Null, c6);
    var c4 := Cons("description", Null, c5);
    var c3 := Cons("required", Null, c4);
    var c2 := Cons("type", a.typ, c3);
    var c1 := Cons("sanitize_callback", Null, c2);
    var c0 := Cons("validate_callback", Null, c1);
    assert GenericCandidates(a, Null) == c0;
    assert Emitted([]) == [];
    EmittedCons("enum", Null, []);
    EmittedCons("name", Null, c8);
    EmittedCons("format", Null, c7);
    EmittedCons("default", Null, c6);
    EmittedCons("description", Null, c5);
    EmittedCons("required", Null, c4);
    EmittedCons("type", a.typ, c3);
    EmittedCons("sanitize_callback", Null, c2);
    EmittedCons("validate_callback", Null, c1);
    assert Emitted(c0) == Emit("type", a.typ, []);
    assert [("type", a.typ)] + [] == [("type", a.typ)];
  }

  /** A fresh argument has nothing in the type-specific block. */
  lemma FreshTypeFields(kind: Kind, key: string)
    ensures TypeFields(Fresh(kind, key)) == Success([])
  {
    var a := Fresh(kind, key);
    assert Emitted([]) == [];
    if a.typ == Str("string") {
      assert StringCandidates(Null, Null, Null) == Cons("minLength", Null, Cons("maxLength", Null, Cons("pattern", Null, [])));
      EmittedCons("pattern", Null, []);
      EmittedCons("maxLength", Null, Cons("pattern", Null, []));
      EmittedCons("minLength", Null, Cons("maxLength", Null, Cons("pattern", Null, [])));
    } else if a.typ == Str("number") || a.typ == Str("integer") {
      var c4 := Cons("exclusiveMaximum", Null, []);
      var c3 := Cons("maximum", Null, c4);
      var c2 := Cons("exclusiveMinimum", Null, c3);
      var c1 := Cons("minimum", Null, c2);
      EmittedCons("exclusiveMaximum", Null, []);
      EmittedCons("maximum", Null, c4);
      EmittedCons("exclusiveMinimum", Null, c3);
      EmittedCons("minimum", Null, c2);
      EmittedCons("multipleOf", Null, c1);
    } else if a.typ == Str("array") {
      assert ParseItems(a) == Success(List([]));
      var c3 := Cons("uniqueItems", Null, []);
      var c2 := Cons("maxItems", Null, c3);
      var c1 := Cons("minItems", Null, c2);
      EmittedCons("uniqueItems", Null, []);
      EmittedCons("maxItems", Null, c3);
      EmittedCons("minItems", Null, c2);
      EmittedCons("items", Null, c1);
    }
  }

  /**
   * A freshly constructed argument serializes to its key over just its type
   * (`{key: {type: T}}`; nothing under the key for the base class).
   */
  lemma FreshSerialization(kind: Kind, key: string)
    ensures ToArray(Fresh(kind, key)) ==
      Success(Assoc([(key, Assoc(if kind == Base then [] else [("type", Str(TypeName(kind)))]))]))
  {
    FreshGenericFields(kind, key);
    FreshTypeFields(kind, key);
    var generic: Entries := if kind == Base then [] else [("type", Str(TypeName(kind)))];
    assert Php.Merge(generic, []) == generic;
  }
}
