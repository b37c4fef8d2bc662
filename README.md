# Perique Route — a Dafny model

Perique Route is a PHP library for declaring WordPress REST routes. A route
is one HTTP method on one path. It has a namespace, a list of arguments, a
list of authentication callbacks and a handler callback. A route group is
several methods on one path. Its shared namespace, arguments and
authentication are copied into every member route when the group is
flattened. Arguments are fluent builders for the JSON-schema-like
option arrays that WordPress's REST server reads. There are typed
arguments for strings, numbers, integers, booleans, null, arrays and
objects, plus an older flat `Route\Argument`. The registrar turns a route
into the record WordPress registers:

- the methods string;
- the handler callback;
- one permission callback composed from the authentication checks;
- a flat map of argument options.

This project models that core in Dafny and proves what each operation
promises.

- `wrappers.dfy`: `Option` and `Result`, and the PHP exceptions the model
  raises (`Exception`, `Route_Exception`, `TypeError`, `Error`).
- `php.dfy`: the PHP built-ins the core relies on:
  - `strtoupper` on ASCII;
  - `empty()` on strings;
  - ordered arrays as lists of key/value pairs, with assignment (an existing
    key keeps its place) and append.
- `argument_data.dfy`: the state of an argument as a value (`ArgData`) and
  PHP's `mixed` (`Value`). It also holds the getters and their strict-typed
  return types, `union_with_type`, `expected` and the item counters.
- `children.dfy`: the `Children` trait, which creates typed child arguments.
- `argument.dfy`: the `Argument` class and its seven typed subclasses as one
  Dafny class. A `kind` constant names the PHP class. Every setter is a
  method with a `modifies` frame, and states the new state.
- `argument_parser.dfy`: `Argument_Parser::to_array` as a recursive function
  over arguments and their items. Every step returns a `Result`, because a
  getter whose declared return type the stored value breaks raises a
  `TypeError` under `strict_types`.
- `argument_parser_props.dfy`: what the serialized map holds, key by key.
  It also proves that the map's keys come in a fixed order, each key once.
- `utils.dfy`: `Utils::compose_conditional_all_true`,
  `compose_conditional_any_true` and `compose_piped_callable`. Each closure's loop
  is a method proved against the function that specifies its result.
- `routes.dfy`:
  - `Route` and `Abstract_Route`, as a class with a `RouteData` snapshot;
  - `Route_Factory`;
  - `Route_Group`, whose route array is an ordered key/value list that never
    holds a key twice;
  - authentication compilation and `with_method`.
- `route_manager.dfy`: `Route_Manager::unpack_group` and
  `create_base_route_from_group`, as methods over fresh `Route` objects.
- `registrar.dfy`: `WP_Rest_Registrar`. It covers argument maps, the
  permission callback, the option record and `map_to_wp_rest`. It also has
  the registrar's broken any-true composer, as written.
- `route_exception.dfy`: the three `Route_Exception` factories.
- `legacy_argument.dfy`: the flat `Route\Argument` class.

Callables are modelled as pure Dafny functions over `Value`. A WordPress
request is an opaque `Value`. Where the described behaviour and the code
disagree, the model follows the code. The differences:

- A route's path is kept verbatim, with no slash normalisation.
- A group stores a second route under the same method in the first one's
  place.
- A route with no callback fails with the `callable` return-type
  `TypeError`, not a `Route_Exception`.
- No HTTP method is rejected as invalid.
- An argument whose key repeats an earlier one replaces it in the
  registered argument map (`Registrar.ArgsMapLastWins`).
- The registrar does not hand WordPress the argument serializer's map.
  `parse_args` writes its own entry per argument:
  - it uses the keys `validation`, `sanitization` and `expected`, not
    `validate_callback`, `sanitize_callback` and `enum`;
  - it writes only those three and `type`, `required`, `description` and
    `format` (`Registrar.ArgEntryOtherKeys`);
  - it never writes `default` (`Registrar.ArgEntryOmitsDefault`), `name`
    or any type-specific key such as `minimum` or `exclusiveMinimum`.
- The 102 `Route_Exception` message joins the namespace and the path with
  no separator between them.

## Model

| member | source | states |
|---|---|---|
| ArgumentData.TypeMapNamesItsClass | src/Argument/Attribute/Children.php:31-41 | the type map has exactly the seven type names, and each maps to the typed class whose type constant is that name |
| ArgumentData.TypeMapCoversKinds | src/Argument/Attribute/Children.php:31-41 | every typed argument class is reached through the type map under its own type name |
| ArgumentData.Fresh | src/Argument/Argument.php:126-128 | a new argument has the key, no type for the base class and the fixed type name for a typed class, no attributes, required unset, no default, empty description, no format, expected values or callbacks, and the allOf relationship |
| ArgumentData.On | src/Argument/Argument.php:137-143 | `on($key, $config)` is the fresh argument, passed through the config when one is given |
| ArgumentData.AddAttributeThenGet | src/Argument/Argument.php:366-369 | after `add_attribute(k, v)`, `get_attribute(k)` gives `v` and every other key reads as before |
| ArgumentData.GetAttributeFallback | src/Argument/Argument.php:378-382 | `get_attribute` gives the fallback for an absent key and the stored value for a present one |
| ArgumentData.TypedAttribute | src/Argument/String_Type.php:38-42 | a nullable typed getter gives null for an absent key and the stored value when it fits the declared type; otherwise, and only then, it raises a TypeError |
| ArgumentData.TypedAttributeRoundTrip | src/Argument/String_Type.php:28-42 | a setter storing a value of the getter's type is read back unchanged |
| ArgumentData.IsRequired | src/Argument/Argument.php:231-233 | `is_required()` is false while unset and the stored flag once set |
| ArgumentData.NameRoundTrip | src/Argument/Argument.php:411-423 | `name($n)` then `get_name()` gives `$n`; with no name attribute it gives null |
| ArgumentData.Dedup | src/Argument/Argument.php:287-296 | `array_unique` keeps exactly the values of its input, each once, in the order in which they first occur |
| ArgumentData.DedupNoDup | src/Argument/Argument.php:287-296 | a list without duplicates passes through `array_unique` unchanged |
| ArgumentData.UnionWithNull | src/Argument/Argument.php:287-296 | a null type becomes the one-element list of the new type |
| ArgumentData.UnionWithSingle | src/Argument/Argument.php:287-296 | a single type becomes the pair of both, or stays single when they are equal |
| ArgumentData.UnionWithList | src/Argument/Argument.php:287-296 | a type list gains the new type at the end unless it holds it already, keeping its order |
| ArgumentData.UnionWithTypeContents | src/Argument/Argument.php:287-296 | the union is a list holding exactly the earlier types and the new one, each once, in the order in which they first occur |
| ArgumentData.AppendExpected | src/Argument/Argument.php:399-404 | the first `expected` call sets the list and later calls append |
| ArgumentData.ExpectedAccumulates | src/Argument/Argument.php:399-404 | two `expected` calls accumulate both value lists in call order |
| ArgumentData.ItemCount | src/Argument/Array_Type.php:159-164 | the item count is the size of the `items` array, 0 when it is absent or not an array |
| ArgumentData.HasItems | src/Argument/Array_Type.php:149-152 | an array argument has items exactly when the item count is positive |
| ArgumentData.AppendToArray | src/Argument/Array_Type.php:38 | `$items[] = $x` on an array adds one entry at the end: the values are the old ones then `x`; an empty array becomes a one-element list, and a string-keyed array keeps its keys and gains the next integer key |
| ArgumentData.NextItemNumber | src/Argument/Array_Type.php:56-57 | the new item's number is one past the last key, 0 for an empty array and the length for a list; a non-array or a last key that is not an integer raises a TypeError, and only then |
| Php.Append | src/Argument/Array_Type.php:38 | `$a[] = $v` puts `v` at the end under a key not yet taken, one past the largest integer key, keeping every earlier entry |
| Php.AppendLookup | src/Argument/Array_Type.php:38 | after `$a[] = $v` the new key holds `v` and every other key holds what it held before |
| Children.CreateChild | src/Argument/Attribute/Children.php:52-66 | a non-argument receiver fails with code 300, an unknown type fails with code 301, otherwise the child is a fresh argument of the mapped class keyed `{parent}_{reference}` with that type |
| Children.ReceiverCheckedFirst | src/Argument/Attribute/Children.php:52-66 | the receiver check comes before the type check |
| Children.ItemKeysDistinct | src/Argument/Array_Type.php:49-63 | items created at different positions of one array get different keys |
| Arguments.NamedChild | src/Argument/Object_Type.php:100-104 | a property child is keyed `{parent}_{name}`, has the requested class and type, and `get_name()` gives the property name |
| Arguments.Argument.constructor | src/Argument/Argument.php:126-128 | a new object holds the fresh argument state |
| Arguments.Argument.Validation | src/Argument/Argument.php:170-173 | stores the validation callback and changes nothing else |
| Arguments.Argument.Sanitization | src/Argument/Argument.php:192-195 | stores the sanitization callback and changes nothing else |
| Arguments.Argument.Default | src/Argument/Argument.php:221-224 | stores the default; `has_default()` then holds exactly when it is non-null |
| Arguments.Argument.Required | src/Argument/Argument.php:250-253 | stores the flag, true by default; `is_required()` then gives it |
| Arguments.Argument.Type | src/Argument/Argument.php:271-278 | a string or array type is stored; anything else raises a TypeError and leaves the argument unchanged |
| Arguments.Argument.UnionWithType | src/Argument/Argument.php:287-296 | replaces the type with its union with the new type name |
| Arguments.Argument.Description | src/Argument/Argument.php:313-316 | stores the description and changes nothing else |
| Arguments.Argument.Format | src/Argument/Argument.php:333-336 | stores the format and changes nothing else |
| Arguments.Argument.SetAttributes | src/Argument/Argument.php:354-357 | replaces the whole attribute bag |
| Arguments.Argument.AddAttribute | src/Argument/Argument.php:366-369 | writes one key of the bag, which then reads back the value |
| Arguments.Argument.Expected | src/Argument/Argument.php:399-404 | appends to the accepted values, creating the list on first use |
| Arguments.Argument.Name | src/Argument/Argument.php:421-423 | sets the `name` attribute, which `get_name()` then returns |
| Arguments.Argument.MinLength | src/Argument/String_Type.php:28-31 | sets `minLength`, which its `?int` getter then returns |
| Arguments.Argument.MaxLength | src/Argument/String_Type.php:50-53 | sets `maxLength`, which its `?int` getter then returns |
| Arguments.Argument.Pattern | src/Argument/String_Type.php:72-75 | sets `pattern`, which its `?string` getter then returns |
| Arguments.Argument.Minimum | src/Argument/Integer_Type.php:41-44 | sets `minimum` on a number or integer argument, which its getter then returns |
| Arguments.Argument.Maximum | src/Argument/Integer_Type.php:63-66 | sets `maximum` on a number or integer argument, which its getter then returns |
| Arguments.Argument.ExclusiveMinimum | src/Argument/Attribute/Number_Attributes.php:23-25 | sets the `exclusiveMinimum` flag, true by default |
| Arguments.Argument.ExclusiveMaximum | src/Argument/Attribute/Number_Attributes.php:42-44 | sets the `exclusiveMaximum` flag, true by default |
| Arguments.Argument.MultipleOf | src/Argument/Attribute/Number_Attributes.php:61-63 | sets `multipleOf`, which its `?float` getter then returns |
| Arguments.AppendError | src/Argument/Array_Type.php:38 | appending to a non-array that is not null or false raises an Error, with PHP's scalar message exactly for booleans, integers and floats |
| Arguments.Argument.Item | src/Argument/Array_Type.php:33-40 | appends the item to the `items` array, creating it when it is unset, null or false; any other non-array `items` raises an Error and changes nothing |
| Arguments.Argument.TypedItem | src/Argument/Array_Type.php:49-63 | numbers the new item one past the last key of `items` (0 when there is none) and appends a fresh child of the requested class keyed `{key}_item_type_{n}`, passed through the config; a non-array `items` or a non-integer last key raises a TypeError and changes nothing |
| Arguments.Argument.MinItems | src/Argument/Array_Type.php:172-174 | sets `minItems`, which its getter then returns |
| Arguments.Argument.MaxItems | src/Argument/Array_Type.php:191-193 | sets `maxItems`, which its getter then returns |
| Arguments.Argument.UniqueItems | src/Argument/Array_Type.php:210-212 | sets `uniqueItems`, true by default, which its getter then returns |
| Arguments.Argument.AllOf | src/Argument/Attribute/Element_Requirements.php:30-33 | sets the relationship to allOf |
| Arguments.Argument.AnyOf | src/Argument/Attribute/Element_Requirements.php:40-43 | sets the relationship to anyOf |
| Arguments.Argument.OneOf | src/Argument/Attribute/Element_Requirements.php:50-53 | sets the relationship to oneOf |
| Arguments.Argument.MinProperties | src/Argument/Object_Type.php:55-57 | sets `minProperties`, which its getter then returns |
| Arguments.Argument.MaxProperties | src/Argument/Object_Type.php:74-76 | sets `maxProperties`, which its getter then returns |
| Arguments.Argument.AddProperty | src/Argument/Object_Type.php:100-104 | stores the named child, passed through the config, under its name in the chosen one of the three property maps; the other two are untouched |
| ArgumentParser.GenericCandidatesAscending | src/Argument/Argument_Parser.php:45-85 | the generic keys are tested in a fixed order |
| ArgumentParser.AscendingUnique | src/Argument/Argument_Parser.php:45-85 | a map built in that order holds each key once |
| ArgumentParser.GenericFields | src/Argument/Argument_Parser.php:45-82 | the generic block is in key order, and it fails exactly when `get_name()` raises |
| ArgumentParser.StringCandidatesAscending | src/Argument/Argument_Parser.php:120-141 | the string keys come after the generic ones, in a fixed order |
| ArgumentParser.NumericCandidatesAscending | src/Argument/Argument_Parser.php:148-180 | the numeric keys come after the generic ones, in a fixed order |
| ArgumentParser.ArrayCandidatesAscending | src/Argument/Argument_Parser.php:187-224 | the array keys come after the generic ones, in a fixed order |
| ArgumentParser.StringFields | src/Argument/Argument_Parser.php:120-141 | only a String_Type contributes string keys, in order |
| ArgumentParser.NumericFields | src/Argument/Argument_Parser.php:148-180 | only a Number_Type or Integer_Type contributes numeric keys, in order |
| ArgumentParser.TypeFields | src/Argument/Argument_Parser.php:98-113 | the type-specific block is ordered after the generic keys |
| ArgumentParser.ItemsField | src/Argument/Argument_Parser.php:200-206 | items go in as they are under allOf, else wrapped under the relationship name |
| ArgumentParser.ArrayFields | src/Argument/Argument_Parser.php:187-224 | only an Array_Type contributes array keys, in order |
| ArgumentParser.ParseItems | src/Argument/Argument_Parser.php:232-251 | parsed items are an array, empty when there are no items |
| ArgumentParser.ParseList | src/Argument/Argument_Parser.php:243-248 | several items give one attribute map per item, in order |
| ArgumentParser.Attributes | src/Argument/Argument_Parser.php:84 | the merged attribute map holds each key once, in the fixed order |
| ArgumentParser.ToArray | src/Argument/Argument_Parser.php:45-85 | a successful result is a one-entry array mapping the argument's key to its attribute map, so every key-by-key property of `Attributes` holds of that entry; it succeeds exactly when the attribute map does and otherwise raises the attribute map's error |
| ArgumentParserProperties.GenericEmission | src/Argument/Argument_Parser.php:45-82 | the generic block, key by key: what is written and when |
| ArgumentParserProperties.ValidateCallbackEmission | src/Argument/Argument_Parser.php:48-50 | `validate_callback` is written exactly when a validation callback is set |
| ArgumentParserProperties.SanitizeCallbackEmission | src/Argument/Argument_Parser.php:52-54 | `sanitize_callback` is written exactly when a sanitization callback is set |
| ArgumentParserProperties.TypeEmission | src/Argument/Argument_Parser.php:56-58 | `type` is written exactly when the type is non-null, as stored |
| ArgumentParserProperties.RequiredEmission | src/Argument/Argument_Parser.php:60-62 | `required` is written whenever the flag is set, so an explicit false is written too |
| ArgumentParserProperties.DescriptionEmission | src/Argument/Argument_Parser.php:64-66 | `description` is written exactly when it is non-empty |
| ArgumentParserProperties.DefaultEmission | src/Argument/Argument_Parser.php:68-70 | `default` is written exactly when it is non-null |
| ArgumentParserProperties.FormatEmission | src/Argument/Argument_Parser.php:72-74 | `format` is written exactly when a format is set |
| ArgumentParserProperties.NameEmission | src/Argument/Argument_Parser.php:76-78 | `name` is written exactly when the name attribute is non-null |
| ArgumentParserProperties.EnumEmission | src/Argument/Argument_Parser.php:80-82 | `enum` is written only for a non-empty expected list |
| ArgumentParserProperties.StringEmission | src/Argument/Argument_Parser.php:120-141 | `minLength`, `maxLength` and `pattern` are each written exactly when stored non-null |
| ArgumentParserProperties.MultipleOfEmission | src/Argument/Argument_Parser.php:161-163 | `multipleOf` is written exactly when stored non-null |
| ArgumentParserProperties.MinimumEmission | src/Argument/Argument_Parser.php:165-170 | `minimum` is written exactly when stored non-null |
| ArgumentParserProperties.ExclusiveMinimumEmission | src/Argument/Argument_Parser.php:165-170 | `exclusiveMinimum` is written only alongside `minimum`, and only when the flag is stored |
| ArgumentParserProperties.MaximumEmission | src/Argument/Argument_Parser.php:172-177 | `maximum` is written exactly when stored non-null |
| ArgumentParserProperties.ExclusiveMaximumEmission | src/Argument/Argument_Parser.php:172-177 | `exclusiveMaximum` is written only alongside `maximum`, and only when the flag is stored |
| ArgumentParserProperties.ItemsEmission | src/Argument/Argument_Parser.php:198-206 | `items` is written only when the parsed items are non-empty, shaped by the relationship |
| ArgumentParserProperties.MinItemsEmission | src/Argument/Argument_Parser.php:208-211 | `minItems` is written exactly when stored non-null |
| ArgumentParserProperties.MaxItemsEmission | src/Argument/Argument_Parser.php:213-216 | `maxItems` is written exactly when stored non-null |
| ArgumentParserProperties.UniqueItemsEmission | src/Argument/Argument_Parser.php:218-221 | `uniqueItems` is written exactly when stored non-null |
| ArgumentParserProperties.ParseItemsShape | src/Argument/Argument_Parser.php:232-251 | no items give an empty array, one item its own attribute map, several items their attribute maps in order |
| ArgumentParserProperties.ParseListFails | src/Argument/Argument_Parser.php:243-248 | the items fail exactly when one item is not an argument or fails itself |
| ArgumentParserProperties.TypeFieldsNeedMatchingClass | src/Argument/Argument_Parser.php:98-113 | the type-specific block is empty unless the declared type and the class agree |
| ArgumentParserProperties.FreshGenericFields | src/Argument/Argument_Parser.php:45-82 | a fresh argument writes only its type in the generic block |
| ArgumentParserProperties.FreshTypeFields | src/Argument/Argument_Parser.php:98-113 | a fresh argument writes nothing in the type-specific block |
| ArgumentParserProperties.FreshSerialization | src/Argument/Argument_Parser.php:45-85 | a fresh argument serializes to `{key: {type: T}}`, with nothing under the key for the base class |
| Utils.RunAllTrue | src/Utils.php:25-35 | true exactly when every callable accepts; stops at the first rejecting one |
| Utils.AllTrueEmpty | src/Utils.php:25-35 | no callables accept everything |
| Utils.AllTrueConcat | src/Utils.php:25-35 | all-true of a concatenation is the conjunction of the two halves |
| Utils.RunAnyTrue | src/Utils.php:45-55 | true exactly when some callable accepts; stops at the first accepting one |
| Utils.AnyTrueEmpty | src/Utils.php:45-55 | no callables accept nothing |
| Utils.AnyTrueConcat | src/Utils.php:45-55 | any-true of a concatenation is the disjunction of the two halves |
| Utils.RunPipe | src/Utils.php:63-70 | the loop gives the value piped through every callable in order |
| Utils.PipeEmpty | src/Utils.php:63-70 | an empty pipe is the identity |
| Utils.PipeConcat | src/Utils.php:63-70 | piping through a concatenation is piping through the first part and then the second |
| Utils.PipeSingle | src/Utils.php:63-70 | a one-callable pipe is that callable |
| Routes.GetAuthentication | src/Route/Abstract_Route.php:90-92 | as written: a TypeError exactly when no callback was ever added, else the list |
| Routes.Authentication | src/Route/Abstract_Route.php:90-92 | corrected: the list, empty while unset, agreeing with the getter wherever that succeeds |
| Routes.AddedAuthentication | src/Route/Route_Authentication_Trait.php:44-47 | adding a callback appends it to the list, creating the list on first use |
| Routes.AuthenticationUnsetFails | src/Route/Abstract_Route.php:30 | a new route's getter raises a TypeError, and after one added callback it returns exactly that callback |
| Routes.CompiledAuthentication | src/Route/Route_Authentication_Trait.php:22-35 | the compiled check accepts everything while unset, and adding a callback makes it accept exactly what it accepted before and the callback accepts |
| Routes.GetCallback | src/Route/Route.php:49-51 | a route without a callback raises the callable return-type TypeError, else the callback |
| Routes.ClonedKeepsRoute | src/Route/Route.php:89-113 | the clone keeps path, arguments, authentication and callback, takes the new method, and drops a namespace of "0"; cloning back under the original method gives the original route, except that a namespace of "0" is now empty and an empty authentication list is now unset |
| Routes.Route.constructor | src/Route/Route.php:39-42 | a new route has the method and path verbatim and nothing else set |
| Routes.Route.SetNamespace | src/Route/Abstract_Route.php:48-51 | sets the namespace and changes nothing else |
| Routes.Route.AddArgument | src/Route/Abstract_Route.php:68-71 | appends the argument, even when its key is already present |
| Routes.Route.AddAuthentication | src/Route/Abstract_Route.php:80-83 | appends the authentication callback |
| Routes.Route.SetCallback | src/Route/Route.php:60-63 | sets the handler callback |
| Routes.Route.WithMethod | src/Route/Route.php:89-113 | returns a fresh route whose state is the clone of this one under the new method |
| Routes.Requested | src/Route_Factory.php:36-41 | a requested route has the method, path, namespace and callback given, and no arguments or authentication |
| Routes.RouteFactory.constructor | src/Route_Factory.php:24-26 | the factory keeps its namespace |
| Routes.RouteFactory.Request | src/Route_Factory.php:36-41 | a fresh route with the callback under the factory's namespace |
| Routes.RouteFactory.Get | src/Route_Factory.php:50-52 | a fresh GET route |
| Routes.RouteFactory.Post | src/Route_Factory.php:61-63 | a fresh POST route |
| Routes.RouteFactory.Put | src/Route_Factory.php:72-74 | a fresh PUT route |
| Routes.RouteFactory.Patch | src/Route_Factory.php:83-85 | a fresh PATCH route |
| Routes.RouteFactory.Delete | src/Route_Factory.php:94-96 | a fresh DELETE route |
| Routes.RouteFactory.GroupBuilder | src/Route_Factory.php:105-112 | a fresh empty group on the path under the factory's namespace |
| Routes.NextIndex | src/Route/Route_Group.php:161-164 | the appended integer key is above every integer key present |
| Routes.NextIndexIsNew | src/Route/Route_Group.php:161-164 | the appended key is not in the route array yet |
| Routes.RouteGroup.constructor | src/Route/Route_Group.php:54-58 | a new group has the namespace, path, a factory for that namespace, and no routes |
| Routes.RouteGroup.SetNamespace | src/Route/Route_Group.php:76-79 | routes created later take the new namespace, and stored routes are untouched |
| Routes.RouteGroup.Get | src/Route/Route_Group.php:96-101 | a fresh GET route under the group's namespace, stored under GET, replacing an earlier one in place; keys stay unique |
| Routes.RouteGroup.Post | src/Route/Route_Group.php:109-114 | as Get, for POST |
| Routes.RouteGroup.Put | src/Route/Route_Group.php:122-127 | as Get, for PUT |
| Routes.RouteGroup.Patch | src/Route/Route_Group.php:135-140 | as Get, for PATCH |
| Routes.RouteGroup.Delete | src/Route/Route_Group.php:148-153 | as Get, for DELETE |
| Routes.RouteGroup.AddRestRoute | src/Route/Route_Group.php:161-164 | appends the route under the next integer key, never replacing one |
| Routes.RouteGroup.HasRoutes | src/Route/Route_Group.php:180-182 | true exactly when the route array is non-empty |
| Routes.RouteGroup.Argument | src/Registration/Route_Manager.php:97-99 | appends a group argument that every flattened route starts with |
| Routes.RouteGroup.AddAuthentication | src/Route/Route_Authentication_Trait.php:44-47 | appends a group check; the group's compiled check then accepts exactly what it did before and the new check accepts |
| RouteManager.AddedAll | src/Registration/Route_Manager.php:93-95 | adding a list of callbacks appends them all, and leaves an unset list unset when there are none |
| RouteManager.AddArguments | src/Registration/Route_Manager.php:97-99 | the route's arguments gain the list, in order |
| RouteManager.AddAuthentications | src/Registration/Route_Manager.php:93-95 | the route's checks gain the list, in order |
| RouteManager.UnpackedRoute | src/Registration/Route_Manager.php:68-102 | a flattened route has the upper-cased method, the group's path and namespace, group arguments before the member's, group checks before the member's, and no callback |
| RouteManager.UnpackedWithCallback | src/Registration/Route_Manager.php:68-102 | the corrected flattened route: as above, but carrying the member's own callback |
| RouteManager.CreateBaseRoute | src/Registration/Route_Manager.php:89-102 | a fresh route built from the group alone under the upper-cased method |
| RouteManager.UnpackRoute | src/Registration/Route_Manager.php:72-84 | a fresh flattened route for one member |
| RouteManager.UnpackGroup | src/Registration/Route_Manager.php:68-87 | succeeds exactly when every key is a method name, else a TypeError; one fresh flattened route per entry, under the same name and in the same order |
| Registrar.ArgEntryValidation | src/Registration/WP_Rest_Registrar.php:64-101 | `validation` is present exactly when set |
| Registrar.ArgEntrySanitization | src/Registration/WP_Rest_Registrar.php:64-101 | `sanitization` is present exactly when set |
| Registrar.ArgEntryType | src/Registration/WP_Rest_Registrar.php:64-101 | `type` is present exactly when non-null |
| Registrar.ArgEntryRequired | src/Registration/WP_Rest_Registrar.php:64-101 | `required` is present exactly when the flag is set |
| Registrar.ArgEntryDescription | src/Registration/WP_Rest_Registrar.php:64-101 | `description` is present exactly when non-empty |
| Registrar.ArgEntryFormat | src/Registration/WP_Rest_Registrar.php:64-101 | `format` is present exactly when set |
| Registrar.ArgEntryExpected | src/Registration/WP_Rest_Registrar.php:64-101 | `expected` is present exactly when set, even when empty |
| Registrar.ArgEntryOtherKeys | src/Registration/WP_Rest_Registrar.php:64-101 | no key outside those seven is written |
| Registrar.ArgEntryOmitsDefault | src/Registration/WP_Rest_Registrar.php:64-101 | the default is never written |
| Registrar.ParseArgs | src/Registration/WP_Rest_Registrar.php:64-101 | the loop builds the argument map |
| Registrar.ArgsMapKeys | src/Registration/WP_Rest_Registrar.php:64-101 | the map has an entry for a key exactly when some argument has that key |
| Registrar.ArgsMapLastWins | src/Registration/WP_Rest_Registrar.php:64-101 | an argument's entry is in the map when no later argument shares its key |
| Registrar.ArgsMapUnique | src/Registration/WP_Rest_Registrar.php:64-101 | the map holds each key once |
| Registrar.ComposePermissionCallback | src/Registration/WP_Rest_Registrar.php:109-124 | a single check is used as it is |
| Registrar.PermissionCallbackAllTrue | src/Registration/WP_Rest_Registrar.php:109-124 | the permission callback accepts exactly when every check accepts |
| Registrar.UnpackedPermission | src/Registration/WP_Rest_Registrar.php:109-124 | a flattened route admits a request exactly when every group check and every member check does |
| Registrar.RegistrarAnyTrueRejects | src/Registration/WP_Rest_Registrar.php:155-166 | as written, the any-true composition rejects a request that an always-true check accepts |
| Registrar.Options | src/Registration/WP_Rest_Registrar.php:47-56 | a TypeError exactly when there is no callback; otherwise the method, callback, permission callback and argument map |
| Registrar.ParseOptions | src/Registration/WP_Rest_Registrar.php:47-56 | the method builds the options of the route's state |
| Registrar.WpRest | src/Registration/WP_Rest_Registrar.php:32-39 | the REST record carries the namespace, path and options with no override, and fails exactly when the options do |
| Registrar.MapToWpRest | src/Registration/WP_Rest_Registrar.php:32-39 | the method builds the REST record of the route's state |
| Registrar.UnpackedRouteHasNoCallback | src/Registration/WP_Rest_Registrar.php:32-56 | a flattened group route fails to map with the callable TypeError |
| Registrar.UnpackedWithCallbackMaps | src/Registration/WP_Rest_Registrar.php:32-56 | a flattened route that carries the member's callback maps exactly when the member has one, under the group's namespace and path, for the upper-cased method, with the group's then the member's arguments and a permission check requiring every group and member check |
| RouteExceptions.NamespaceNotDefined | src/Route_Exception.php:27-32 | a Route_Exception with code 101 naming the route |
| RouteExceptions.ShownNamespace | src/Route_Exception.php:41-56 | the namespace shown is the route's own when it has one and the placeholder otherwise, so it is never empty |
| RouteExceptions.MissingNamespaceUpper | src/Route_Exception.php:41-56 | the placeholder is unchanged by upper-casing |
| RouteExceptions.CallbackNotDefinedMessage | src/Route_Exception.php:41-56 | code 102; the message is the upper-cased method in brackets, then the upper-cased namespace and path, with the placeholder exactly when the namespace is empty |
| RouteExceptions.InvalidHttpMethod | src/Route_Exception.php:64-72 | a Route_Exception with code 103 whose message is the upper-cased method followed by the fixed text |
| RouteExceptions.InvalidHttpMethodMessage | src/Route_Exception.php:64-72 | the 103 message has the method's length plus the fixed text's, raises every lower-case letter of the method, ends with the fixed text, and is the same for methods differing only in case |
| LegacyArguments.LegacyOn | src/Route/Argument.php:143-148 | `on($key, $config)` is the new argument, passed through the config when one is given |
| LegacyArguments.NewLegacyDefaults | src/Route/Argument.php:74-134 | a new argument has type string, empty description, both exclusive flags false, not required, no default, null bounds, and getters for the callbacks that fail |
| LegacyArguments.LegacyGetValidation | src/Route/Argument.php:164-166 | a TypeError exactly when no validation callback is set |
| LegacyArguments.LegacyGetSanitization | src/Route/Argument.php:185-187 | a TypeError exactly when no sanitization callback is set |
| LegacyArguments.LegacyIsRequired | src/Route/Argument.php:235-237 | required exactly when set to true |
| LegacyArguments.LegacyHasDefault | src/Route/Argument.php:215-217 | a default exactly when it is non-null |
| LegacyArguments.IntBound | src/Route/Argument.php:337-339 | a `?int` getter returns an int or null as stored and raises a TypeError for anything else |
| LegacyArguments.BoundsRoundTrip | src/Route/Argument.php:337-372 | a bound set then read gives the value back exactly when it is an int or null, and the other bound is unaffected |
| LegacyArguments.LegacyArgument.constructor | src/Route/Argument.php:132-134 | a new object holds the default state |
| LegacyArguments.LegacyArgument.Validation | src/Route/Argument.php:175-178 | sets the validation callback, which the getter then returns |
| LegacyArguments.LegacyArgument.Sanitization | src/Route/Argument.php:196-199 | sets the sanitization callback, which the getter then returns |
| LegacyArguments.LegacyArgument.Default | src/Route/Argument.php:225-228 | sets the default; `has_default()` then holds exactly when it is non-null |
| LegacyArguments.LegacyArgument.Required | src/Route/Argument.php:245-248 | sets the flag, true by default |
| LegacyArguments.LegacyArgument.Type | src/Route/Argument.php:266-269 | sets the type |
| LegacyArguments.LegacyArgument.Description | src/Route/Argument.php:286-289 | sets the description |
| LegacyArguments.LegacyArgument.Format | src/Route/Argument.php:306-309 | sets the format |
| LegacyArguments.LegacyArgument.Expected | src/Route/Argument.php:326-329 | appends to the expected values, starting from an empty list |
| LegacyArguments.LegacyArgument.Minimum | src/Route/Argument.php:348-351 | stores any value as the minimum |
| LegacyArguments.LegacyArgument.Maximum | src/Route/Argument.php:369-372 | stores any value as the maximum |
| LegacyArguments.LegacyArgument.ExclusiveMinimum | src/Route/Argument.php:389-392 | sets the exclusive-minimum flag, true by default |
| LegacyArguments.LegacyArgument.ExclusiveMaximum | src/Route/Argument.php:409-412 | sets the exclusive-maximum flag, true by default |

## Left out

- Child arguments are stored as value snapshots taken when they are
  attached. A later change to a child object through another reference is
  not seen by the parent, so aliasing is not modelled.
- The attribute bag and Object_Type's three property maps (`properties`,
  `additionalProperties`, `patternProperties`) are Dafny `map`s, so their
  insertion order and PHP's numeric-string keys are not modelled. The
  serialized arrays are ordered lists.
- Inside a value, a string-keyed array is an ordered list of entries. Only
  a key made of decimal digits without a leading zero counts as an integer
  key; negative integer keys are not modelled.
- ArgumentData.Dedup: `array_unique` keeps each surviving value under its
  original key (`[0 => 'a', 1 => 'a', 2 => 'b']` gives
  `[0 => 'a', 2 => 'b']`), and string keys survive too. The model returns
  the survivors as a list numbered from 0; their values and order are kept.
- ArgumentData.UnionWithTypeContents: the union is stated as a list
  numbered from 0, for the reason given under ArgumentData.Dedup; a
  string-keyed type array loses its keys.
- Arguments.Argument.UnionWithType: stores that renumbered list.
- ArgumentData.AppendToArray: PHP's next free index also remembers keys
  deleted earlier; a value carries no such history, so the new key is one
  past the largest integer key present.
- Arguments.Argument.TypedItem: only a last key made of decimal digits is
  added to. PHP also adds 1 to a negative key and, with a warning, to a
  leading-numeric string key (`'5a'` gives 6); the model reports those as
  the TypeError that a non-numeric last key raises.
- `array_unique` in `union_with_type` compares loosely through string casts.
  The model compares values structurally.
- Floats are opaque (`multipleOf` is stored and read back, never computed
  with). Float-to-string conversion is not modelled.
- Config callables are pure functions from an argument's state to a new
  state. A config that keeps a reference to the object or mutates other
  objects is not modelled.
- Routes.RouteFactory.GroupBuilder: the `group_builder` config callable
  runs on a mutable group and is not applied. The model returns the fresh
  group and leaves the configuration to the caller.
- Arguments.Argument.ExclusiveMinimum: Number_Type's own exclusive setters
  take a required bool. The model gives the shared method the trait's
  default of true.
- Arguments.Argument.ExclusiveMaximum: the same as ExclusiveMinimum.
- `Route_Argument`, the argument class that `Abstract_Route::argument`
  declares, is not part of this model. Route arguments are modelled as
  `src/Argument/Argument.php` arguments, whose `get_required()` the
  registrar calls.
- `Route_Group` as written declares no `get_arguments`, `get_authentication`
  or `argument`, yet `Route_Manager` calls them. The model gives the group
  those fields and methods.
- `Route_Group` refers to `Route::GET` through an import of a different
  `Route` class. PHP class resolution is not modelled; the constants are
  the method names.
- Both setter spellings (`namespace`/`set_namespace`, `callback`/
  `set_callback`, `authentication`/`add_authentication`) are one method each.
- Trivial getters (`get_key`, `get_type`, `get_description`, `get_format`,
  `get_arguments`, `get_route`, `get_namespace` and the like) are reads of
  fields of the state snapshot.
- `Routes.Authentication` reads an unset authentication list as empty. It
  is used by `unpack_group`, `create_base_route_from_group` and the
  permission callback, where PHP as written raises the TypeError that
  `Routes.GetAuthentication` models.
- A WordPress request is an opaque value. `'__return_true'` is modelled as
  a callable that returns true.
- `WP_Rest_Registrar::compose_conditional_all_true` and
  `compose_piped_callable` have the same bodies as
  `Utils::compose_conditional_all_true` and `Utils::compose_piped_callable`,
  so they are modelled once, in `Utils`.
- `dump`, `create_callback`, `from_route`, `from_group`, `execute` and the
  hook loader register with WordPress, which is I/O outside the model.
- `src/Route.php` (a broken duplicate class), `Route_Collection`, the
  schema classes and the framework-module glue are not part of this model.
- Dafny `int` is unbounded. PHP integer overflow into floats is not
  modelled.

## Findings

| source | as written | input that shows it | evidently intended | confidence | as-written member | corrected member |
|---|---|---|---|---|---|---|
| src/Route/Abstract_Route.php:30 | `$authentication` has no initial value, so `get_authentication(): array` returns null, which raises a TypeError, until the first callback is added | `(new Route('GET', '/x'))->get_authentication()`; also `unpack_group` on any member route without its own checks | an empty list of checks | high, not executed | Routes.AuthenticationUnsetFails | Routes.Authentication |
| src/Registration/WP_Rest_Registrar.php:155-166 | the parameter is `$callable` but the closure captures `$callables`, which is undefined, so the loop runs over null and the closure always returns false | `compose_conditional_any_true(fn() => true)` on any request returns false | true when some callable accepts, as `Utils::compose_conditional_any_true` does | high, not executed | Registrar.RegistrarAnyTrueRejects | Utils.RunAnyTrue |
| src/Registration/Route_Manager.php:89-102 | `create_base_route_from_group` and `unpack_group` never copy the member route's callback, so every flattened route has none and `map_to_wp_rest` raises the callable TypeError | a group with `get($callback)`, flattened and mapped | each flattened route keeps its member's callback, as the group registration test expects a 200 response | high, not executed | Registrar.UnpackedRouteHasNoCallback | Registrar.UnpackedWithCallbackMaps |
