/**
 * The flat route argument `PinkCrab\Route\Route\Argument`: an older record
 * with one property per WordPress argument option and fixed defaults
 * (type `string`, empty description, both exclusive flags false).
 */
module LegacyArguments {
  import opened Wrappers
  import opened Errors
  import opened ArgumentData

  const FORMAT_DATE_TIME := "date-time"
  const FORMAT_EMAIL := "email"
  const FORMAT_IP := "ip"
  const FORMAT_URL := "url"

  const TYPE_STRING := "string"
  const TYPE_BOOLEAN := "boolean"
  const TYPE_INTEGER := "integer"
  const TYPE_NUMBER := "number"

  /** The argument's state. `minimum` and `maximum` take any value; only their getters are typed. */
  datatype LegacyData = LegacyData(
    key: string,
    validation: Option<Callback>,
    sanitization: Option<Callback>,
    required: Option<bool>,
    typ: string,
    description: string,
    format: Option<string>,
    expected: Option<seq<Value>>,
    minimum: Value,
    maximum: Value,
    exclusiveMinimum: bool,
    exclusiveMaximum: bool,
    defaultValue: Value)

  /** `new Argument($key)`. */
  function NewLegacy(key: string): LegacyData {
    LegacyData(key, None, None, None, TYPE_STRING, "", None, None, Null, Null, false, false, Null)
  }

  /** `Argument::on($key, $config)`: the config's result when a config is given, else the new argument. */
  function LegacyOn(key: string, config: Option<LegacyData -> LegacyData>): (d: LegacyData)
    ensures config.None? ==> d == NewLegacy(key)
    ensures config.Some? ==> d == config.value(NewLegacy(key))
  {
    if config.Some? then config.value(NewLegacy(key)) else NewLegacy(key)
  }

  /** A new argument has the documented defaults. */
  lemma NewLegacyDefaults(key: string)
    ensures NewLegacy(key).typ == "string" && NewLegacy(key).description == ""
    ensures !NewLegacy(key).exclusiveMinimum && !NewLegacy(key).exclusiveMaximum
    ensures !LegacyIsRequired(NewLegacy(key)) && !LegacyHasDefault(NewLegacy(key))
    ensures LegacyGetMinimum(NewLegacy(key)) == Success(Null) && LegacyGetMaximum(NewLegacy(key)) == Success(Null)
    ensures NewLegacy(key).format == None && NewLegacy(key).expected == None
    ensures LegacyGetValidation(NewLegacy(key)).Failure? && LegacyGetSanitization(NewLegacy(key)).Failure?
  {
  }

  const NullCallableMessage := "Return value must be of type callable, null returned"

  /** `get_validation()`, declared `callable`: a TypeError until a validation callback is set. */
  function LegacyGetValidation(d: LegacyData): (r: Result<Callback, Exception>)
    ensures r.Success? <==> d.validation.Some?
    ensures r.Success? ==> r.value == d.validation.value
    ensures r.Failure? ==> r.error == TypeErrorOf(NullCallableMessage)
  {
    if d.validation.Some? then Success(d.validation.value) else Failure(TypeErrorOf(NullCallableMessage))
  }

  /** `get_sanitization()`, declared `callable`: a TypeError until a sanitization callback is set. */
  function LegacyGetSanitization(d: LegacyData): (r: Result<Callback, Exception>)
    ensures r.Success? <==> d.sanitization.Some?
    ensures r.Success? ==> r.value == d.sanitization.value
    ensures r.Failure? ==> r.error == TypeErrorOf(NullCallableMessage)
  {
    if d.sanitization.Some? then Success(d.sanitization.value) else Failure(TypeErrorOf(NullCallableMessage))
  }

  /** `is_required()`: `$this->required ?? false`. */
  function LegacyIsRequired(d: LegacyData): (r: bool)
    ensures r <==> d.required == Some(true)
  {
    d.required.GetOr(false)
  }

  /** `has_default()`. */
  function LegacyHasDefault(d: LegacyData): (r: bool)
    ensures r <==> d.defaultValue != Null
  {
    !d.defaultValue.Null?
  }

  /** A getter declared `?int` returning the stored bound: an int or null passes, anything else is a TypeError. */
  function IntBound(v: Value): (r: Result<Value, Exception>)
    ensures r.Success? <==> v.Null? || v.Int?
    ensures r.Success? ==> r.value == v
    ensures r.Failure? ==> r.error.kind == TypeError
  {
    match Conform(v, TInt)
    case Some(w) => Success(w)
    case None => Failure(TypeErrorOf("Return value must be of type ?int, " + ValueTypeName(v) + " returned"))
  }

  /** `get_minimum()`. */
  function LegacyGetMinimum(d: LegacyData): Result<Value, Exception> {
    IntBound(d.minimum)
  }

  /** `get_maximum()`. */
  function LegacyGetMaximum(d: LegacyData): Result<Value, Exception> {
    IntBound(d.maximum)
  }

  /**
   * `minimum($n)` then `get_minimum()` gives `n` back for an int or null, and a
   * TypeError for anything else the untyped setter let through; the same for the maximum.
   */
  lemma BoundsRoundTrip(d: LegacyData, v: Value)
    ensures LegacyGetMinimum(d.(minimum := v)).Success? <==> v.Null? || v.Int?
    ensures LegacyGetMinimum(d.(minimum := v)).Success? ==> LegacyGetMinimum(d.(minimum := v)).value == v
    ensures LegacyGetMaximum(d.(maximum := v)).Success? <==> v.Null? || v.Int?
    ensures LegacyGetMaximum(d.(maximum := v)).Success? ==> LegacyGetMaximum(d.(maximum := v)).value == v
    ensures LegacyGetMinimum(d.(maximum := v)) == LegacyGetMinimum(d)
    ensures LegacyGetMaximum(d.(minimum := v)) == LegacyGetMaximum(d)
  {
  }

  class LegacyArgument {
    const key: string
    var validation: Option<Callback>
    var sanitization: Option<Callback>
    var required: Option<bool>
    var typ: string
    var description: string
    var format: Option<string>
    var expected: Option<seq<Value>>
    var minimum: Value
    var maximum: Value
    var exclusiveMinimum: bool
    var exclusiveMaximum: bool
    var defaultValue: Value

    function Data(): LegacyData
      reads this
    {
      LegacyData(key, validation, sanitization, required, typ, description, format, expected,
        minimum, maximum, exclusiveMinimum, exclusiveMaximum, defaultValue)
    }

    /** `new Argument($key)`. */
    constructor(key: string)
      ensures Data() == NewLegacy(key)
    {
      this.key := key;
      validation := None;
      sanitization := None;
      required := None;
      typ := TYPE_STRING;
      description := "";
      format := None;
      expected := None;
      minimum := Null;
      maximum := Null;
      exclusiveMinimum := false;
      exclusiveMaximum := false;
      defaultValue := Null;
    }

    method Validation(cb: Callback)
      modifies this
      ensures Data() == old(Data()).(validation := Some(cb))
      ensures LegacyGetValidation(Data()) == Success(cb)
    {
      validation := Some(cb);
    }

    method Sanitization(cb: Callback)
      modifies this
      ensures Data() == old(Data()).(sanitization := Some(cb))
      ensures LegacyGetSanitization(Data()) == Success(cb)
    {
      sanitization := Some(cb);
    }

    /** `default($v)`; storing null makes `has_default()` false again. */
    method Default(v: Value)
      modifies this
      ensures Data() == old(Data()).(defaultValue := v)
      ensures LegacyHasDefault(Data()) <==> v != Null
    {
      defaultValue := v;
    }

    /** `required($b = true)`. */
    method Required(b: bool := true)
      modifies this
      ensures Data() == old(Data()).(required := Some(b))
      ensures LegacyIsRequired(Data()) == b
    {
      required := Some(b);
    }

    /** `type($t)`: overwrites the type. */
    method Type(t: string)
      modifies this
      ensures Data() == old(Data()).(typ := t)
    {
      typ := t;
    }

    method Description(s: string)
      modifies this
      ensures Data() == old(Data()).(description := s)
    {
      description := s;
    }

    method Format(s: string)
      modifies this
      ensures Data() == old(Data()).(format := Some(s))
    {
      format := Some(s);
    }

    /** `expected(...$vs)`: appends to the list, which starts out empty. */
    method Expected(vs: seq<Value>)
      modifies this
      ensures Data() == old(Data()).(expected := AppendExpected(old(expected), vs))
      ensures expected == Some(old(expected).GetOr([]) + vs)
    {
      expected := AppendExpected(expected, vs);
      assert old(expected).None? ==> [] + vs == vs;
    }

    /** `minimum($n)`: the parameter is untyped, so any value is stored. */
    method Minimum(v: Value)
      modifies this
      ensures Data() == old(Data()).(minimum := v)
    {
      minimum := v;
    }

    method Maximum(v: Value)
      modifies this
      ensures Data() == old(Data()).(maximum := v)
    {
      maximum := v;
    }

    /** `exclusive_minimum($b = true)`. */
    method ExclusiveMinimum(b: bool := true)
      modifies this
      ensures Data() == old(Data()).(exclusiveMinimum := b)
    {
      exclusiveMinimum := b;
    }

    /** `exclusive_maximum($b = true)`. */
    method ExclusiveMaximum(b: bool := true)
      modifies this
      ensures Data() == old(Data()).(exclusiveMaximum := b)
    {
      exclusiveMaximum := b;
    }
  }
}
