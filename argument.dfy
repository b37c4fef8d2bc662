/**
 * The fluent argument builder: `Argument` and its typed subclasses
 * (String_Type, Integer_Type, Number_Type, Boolean_Type, Null_Type,
 * Array_Type, Object_Type), as one class whose `kind` records which
 * subclass the object is. Methods a subclass adds require that kind.
 * Every setter changes its own field (or attribute key) and nothing else.
 */
module Arguments {
  import opened Wrappers
  import opened Errors
  import opened ArgumentData
  import Children

  /** Which of Object_Type's three property maps a property goes into. */
  datatype PropertyMap = Properties | AdditionalProperties | PatternProperties

  const TypeMessage := "Only single types or array of types are allowed with arguments."

  /**
   * The Error PHP raises for `$v[] = $x` when `$v` is neither null, false
   * nor an array. The object messages are approximate: PHP names the
   * object's real class (a typed argument shows its own subclass), and a
   * callable given as a function-name string is a string to PHP, not a
   * Closure.
   */
  function AppendError(v: Value): (e: Exception)
    requires !IsArray(v) && v != Null && v != Bool(false)
    ensures e.kind == Error
    ensures (v.Bool? || v.Int? || v.Num?) <==> e.message == "Cannot use a scalar value as an array"
  {
    if v.Str? then Exception(Error, "[] operator not supported for strings", 0)
    else if v.Fn? then Exception(Error, "Cannot use object of type Closure as array", 0)
    else if v.Arg? then Exception(Error, "Cannot use object of type Argument as array", 0)
    else Exception(Error, "Cannot use a scalar value as an array", 0)
  }

  /** The child a `{type}_property($name)` helper stores before any config runs. */
  function NamedChild(parentKey: string, name: string, t: Kind): (d: ArgData)
    requires t != Base
    ensures d.key == Children.ChildKey(parentKey, name) && d.kind == t && d.typ == Str(TypeName(t))
    ensures GetName(d) == Success(Str(name))
  {
    var child := Fresh(t, Children.ChildKey(parentKey, name));
    child.(attributes := child.attributes["name" := Str(name)])
  }

  class Argument {
    const key: string
    const kind: Kind
    var validation: Option<Callback>
    var sanitization: Option<Callback>
    var required: Option<bool>
    var typ: Value
    var description: string
    var attributes: map<string, Value>
    var defaultValue: Value
    var format: Option<string>
    var expected: Option<seq<Value>>
    var relationship: Relationship
    var properties: map<string, ArgData>
    var additionalProperties: map<string, ArgData>
    var patternProperties: map<string, ArgData>

    /** The object's current state as a value. */
    function Data(): ArgData
      reads this
    {
      ArgData(key, kind, validation, sanitization, required, typ, description, attributes,
        defaultValue, format, expected, relationship, properties, additionalProperties, patternProperties)
    }

    /** `new C($key)`; a typed subclass then fixes its type. */
    constructor(kind: Kind, key: string)
      ensures Data() == Fresh(kind, key)
    {
      this.key := key;
      this.kind := kind;
      validation := None;
      sanitization := None;
      required := None;
      typ := if kind == Base then Null else Str(TypeName(kind));
      description := "";
      attributes := map[];
      defaultValue := Null;
      format := None;
      expected := None;
      relationship := Relationship.AllOf;
      properties := map[];
      additionalProperties := map[];
      patternProperties := map[];
    }

    // -------------------------------------------------------------------
    // Argument
    // -------------------------------------------------------------------

    method Validation(cb: Callback)
      modifies this
      ensures Data() == old(Data()).(validation := Some(cb))
    {
      validation := Some(cb);
    }

    method Sanitization(cb: Callback)
      modifies this
      ensures Data() == old(Data()).(sanitization := Some(cb))
    {
      sanitization := Some(cb);
    }

    /** `default($v)`; storing null makes `has_default()` false again. */
    method Default(v: Value)
      modifies this
      ensures Data() == old(Data()).(defaultValue := v)
      ensures HasDefault(Data()) <==> v != Null
    {
      defaultValue := v;
    }

    /** `required($b = true)`. */
    method Required(b: bool := true)
      modifies this
      ensures Data() == old(Data()).(required := Some(b))
      ensures IsRequired(Data()) == b
    {
      required := Some(b);
    }

    /** `type($t)`: only a string or an array is accepted; anything else is a TypeError and nothing changes. */
    method Type(v: Value) returns (err: Option<Exception>)
      modifies this
      ensures v.Str? || IsArray(v) ==> err == None && Data() == old(Data()).(typ := v)
      ensures !(v.Str? || IsArray(v)) ==> err == Some(TypeErrorOf(TypeMessage)) && Data() == old(Data())
    {
      if v.Str? || IsArray(v) {
        typ := v;
        err := None;
      } else {
        err := Some(TypeErrorOf(TypeMessage));
      }
    }

    /** `union_with_type($t)`. */
    method UnionWithType(t: string)
      modifies this
      ensures Data() == old(Data()).(typ := ArgumentData.UnionWithType(old(typ), t))
    {
      typ := ArgumentData.UnionWithType(typ, t);
    }

    method Description(s: string)
      modifies this
      ensures Data() == old(Data()).(description := s)
    {
      description := s;
    }

    method Format(s: string)
      modifies this
      ensures Data() == old(Data()).(format := Some(s))
    {
      format := Some(s);
    }

    method SetAttributes(m: map<string, Value>)
      modifies this
      ensures Data() == old(Data()).(attributes := m)
    {
      attributes := m;
    }

    /** `add_attribute($k, $v)`: writes one key of the bag. */
    method AddAttribute(k: string, v: Value)
      modifies this
      ensures Data() == old(Data()).(attributes := old(attributes)[k := v])
      ensures GetAttribute(Data(), k, Null) == v
    {
      attributes := attributes[k := v];
    }

    /** `expected(...$vs)`: appends to the accepted values, creating the list on first use. */
    method Expected(vs: seq<Value>)
      modifies this
      ensures Data() == old(Data()).(expected := AppendExpected(old(expected), vs))
    {
      expected := AppendExpected(expected, vs);
    }

    /** `name($n)`: the `name` attribute. */
    method Name(n: string)
      modifies this
      ensures Data() == old(Data()).(attributes := old(attributes)["name" := Str(n)])
      ensures GetName(Data()) == Success(Str(n))
    {
      AddAttribute("name", Str(n));
    }

    // -------------------------------------------------------------------
    // String_Type
    // -------------------------------------------------------------------

    method MinLength(n: int)
      requires kind == StringType
      modifies this
      ensures Data() == old(Data()).(attributes := old(attributes)["minLength" := Int(n)])
      ensures TypedAttribute(Data(), "minLength", TInt) == Success(Int(n))
    {
      attributes := attributes["minLength" := Int(n)];
    }

    method MaxLength(n: int)
      requires kind == StringType
      modifies this
      ensures Data() == old(Data()).(attributes := old(attributes)["maxLength" := Int(n)])
      ensures TypedAttribute(Data(), "maxLength", TInt) == Success(Int(n))
    {
      attributes := attributes["maxLength" := Int(n)];
    }

    method Pattern(p: string)
      requires kind == StringType
      modifies this
      ensures Data() == old(Data()).(attributes := old(attributes)["pattern" := Str(p)])
      ensures TypedAttribute(Data(), "pattern", TString) == Success(Str(p))
    {
      attributes := attributes["pattern" := Str(p)];
    }

    // -------------------------------------------------------------------
    // Integer_Type, Number_Type and Number_Attributes
    // -------------------------------------------------------------------

    method Minimum(n: int)
      requires IsNumeric(kind)
      modifies this
      ensures Data() == old(Data()).(attributes := old(attributes)["minimum" := Int(n)])
      ensures TypedAttribute(Data(), "minimum", TInt) == Success(Int(n))
    {
      attributes := attributes["minimum" := Int(n)];
    }

    method Maximum(n: int)
      requires IsNumeric(kind)
      modifies this
      ensures Data() == old(Data()).(attributes := old(attributes)["maximum" := Int(n)])
      ensures TypedAttribute(Data(), "maximum", TInt) == Success(Int(n))
    {
      attributes := attributes["maximum" := Int(n)];
    }

    method ExclusiveMinimum(b: bool := true)
      requires IsNumeric(kind)
      modifies this
      ensures Data() == old(Data()).(attributes := old(attributes)["exclusiveMinimum" := Bool(b)])
      ensures TypedAttribute(Data(), "exclusiveMinimum", TBool) == Success(Bool(b))
    {
      attributes := attributes["exclusiveMinimum" := Bool(b)];
    }

    method ExclusiveMaximum(b: bool := true)
      requires IsNumeric(kind)
      modifies this
      ensures Data() == old(Data()).(attributes := old(attributes)["exclusiveMaximum" := Bool(b)])
      ensures TypedAttribute(Data(), "exclusiveMaximum", TBool) == Success(Bool(b))
    {
      attributes := attributes["exclusiveMaximum" := Bool(b)];
    }

    method MultipleOf(f: Float)
      requires IsNumeric(kind)
      modifies this
      ensures Data() == old(Data()).(attributes := old(attributes)["multipleOf" := Num(f)])
      ensures TypedAttribute(Data(), "multipleOf", TFloat) == Success(Num(f))
    {
      attributes := attributes["multipleOf" := Num(f)];
    }

    // -------------------------------------------------------------------
    // Array_Type
    // -------------------------------------------------------------------

    /**
     * `item($x)`: appends a snapshot of `x` to the `items` array, creating
     * the array on first use. Null and false are replaced by a new array;
     * any other non-array `items` attribute (set through the bag) makes PHP
     * raise an Error.
     */
    method Item(x: Argument) returns (err: Option<Exception>)
      requires kind == ArrayType
      modifies this
      ensures var items := GetAttribute(old(Data()), "items", Null);
        if items == Null || items == Bool(false) then
          err == None && Data() == old(Data()).(attributes := old(attributes)["items" := List([Arg(old(x.Data()))])])
        else if IsArray(items) then
          err == None && Data() == old(Data()).(attributes := old(attributes)["items" := AppendToArray(items, Arg(old(x.Data())))])
        else
          err == Some(AppendError(items)) && Data() == old(Data())
    {
      var items := GetAttribute(Data(), "items", Null);
      var snapshot := x.Data();
      if items == Null || items == Bool(false) {
        attributes := attributes["items" := List([Arg(snapshot)])];
        err := None;
      } else if IsArray(items) {
        attributes := attributes["items" := AppendToArray(items, Arg(snapshot))];
        err := None;
      } else {
        err := Some(AppendError(items));
      }
    }

    /**
     * `create_item_type($t, $config)` behind the seven `{type}_item` helpers:
     * the new item is numbered one past the last key of `items` (0 when
     * there is none), and a fresh child of type `t` keyed
     * `"{key}_item_type_{n}"` is built, passed through `config` if given,
     * and appended. When the number cannot be formed the TypeError is
     * raised and nothing changes.
     */
    method TypedItem(t: Kind, config: Option<ArgData -> ArgData>) returns (err: Option<Exception>)
      requires kind == ArrayType && t != Base
      modifies this
      ensures var items := GetAttribute(old(Data()), "items", List([]));
        match NextItemNumber(items)
        case Success(n) =>
          var child := Fresh(t, Children.ChildKey(key, Children.ItemReference(n)));
          err == None
          && Data() == old(Data()).(attributes := old(attributes)["items" := AppendToArray(items, Arg(ApplyConfig(config, child)))])
        case Failure(e) =>
          err == Some(e) && Data() == old(Data())
    {
      var items := GetAttribute(Data(), "items", List([]));
      var number := NextItemNumber(items);
      if number.Success? {
        var created := Children.CreateChild(Children.ArgumentReceiver(Data()), Children.ItemReference(number.value), TypeName(t));
        TypeMapCoversKinds(t);
        var stored := ApplyConfig(config, created.value);
        attributes := attributes["items" := AppendToArray(items, Arg(stored))];
        err := None;
      } else {
        err := Some(number.error);
      }
    }

    method MinItems(n: int)
      requires kind == ArrayType
      modifies this
      ensures Data() == old(Data()).(attributes := old(attributes)["minItems" := Int(n)])
      ensures TypedAttribute(Data(), "minItems", TInt) == Success(Int(n))
    {
      attributes := attributes["minItems" := Int(n)];
    }

    method MaxItems(n: int)
      requires kind == ArrayType
      modifies this
      ensures Data() == old(Data()).(attributes := old(attributes)["maxItems" := Int(n)])
      ensures TypedAttribute(Data(), "maxItems", TInt) == Success(Int(n))
    {
      attributes := attributes["maxItems" := Int(n)];
    }

    /** `unique_items($b = true)`. */
    method UniqueItems(b: bool := true)
      requires kind == ArrayType
      modifies this
      ensures Data() == old(Data()).(attributes := old(attributes)["uniqueItems" := Bool(b)])
      ensures TypedAttribute(Data(), "uniqueItems", TBool) == Success(Bool(b))
    {
      attributes := attributes["uniqueItems" := Bool(b)];
    }

    // -------------------------------------------------------------------
    // Element_Requirements (Array_Type and Object_Type)
    // -------------------------------------------------------------------

    method AllOf()
      requires HasElements(kind)
      modifies this
      ensures Data() == old(Data()).(relationship := Relationship.AllOf)
    {
      relationship := Relationship.AllOf;
    }

    method AnyOf()
      requires HasElements(kind)
      modifies this
      ensures Data() == old(Data()).(relationship := Relationship.AnyOf)
    {
      relationship := Relationship.AnyOf;
    }

    method OneOf()
      requires HasElements(kind)
      modifies this
      ensures Data() == old(Data()).(relationship := Relationship.OneOf)
    {
      relationship := Relationship.OneOf;
    }

    // -------------------------------------------------------------------
    // Object_Type
    // -------------------------------------------------------------------

    method MinProperties(n: int)
      requires kind == ObjectType
      modifies this
      ensures Data() == old(Data()).(attributes := old(attributes)["minProperties" := Int(n)])
      ensures TypedAttribute(Data(), "minProperties", TInt) == Success(Int(n))
    {
      attributes := attributes["minProperties" := Int(n)];
    }

    method MaxProperties(n: int)
      requires kind == ObjectType
      modifies this
      ensures Data() == old(Data()).(attributes := old(attributes)["maxProperties" := Int(n)])
      ensures TypedAttribute(Data(), "maxProperties", TInt) == Success(Int(n))
    {
      attributes := attributes["maxProperties" := Int(n)];
    }

    /**
     * `add_property`, `add_additional_property` and `add_pattern_property`
     * behind the `{type}_property`, `{type}_additional_property` and
     * `{type}_pattern_property` helpers: a child of type `t` keyed
     * `"{key}_{name}"` with attribute `name` set to `name`, passed through
     * `config` if given, is stored under `name` in the chosen map. The other
     * two maps are untouched; an earlier entry under `name` is replaced.
     */
    method AddProperty(target: PropertyMap, name: string, t: Kind, config: Option<ArgData -> ArgData>)
      requires kind == ObjectType && t != Base
      modifies this
      ensures var stored := ApplyConfig(config, NamedChild(key, name, t));
        match target
        case Properties =>
          Data() == old(Data()).(properties := old(properties)[name := stored])
        case AdditionalProperties =>
          Data() == old(Data()).(additionalProperties := old(additionalProperties)[name := stored])
        case PatternProperties =>
          Data() == old(Data()).(patternProperties := old(patternProperties)[name := stored])
    {
      var created := Children.CreateChild(Children.ArgumentReceiver(Data()), name, TypeName(t));
      TypeMapCoversKinds(t);
      var child := created.value;
      var named := child.(attributes := child.attributes["name" := Str(name)]);
      var stored := ApplyConfig(config, named);
      match target
      case Properties =>
        properties := properties[name := stored];
      case AdditionalProperties =>
        additionalProperties := additionalProperties[name := stored];
      case PatternProperties =>
        patternProperties := patternProperties[name := stored];
    }
  }
}
