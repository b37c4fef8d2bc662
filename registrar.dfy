/**
 * `WP_Rest_Registrar`: turns a route into the record WordPress registers, with
 * a flat argument map and one permission callback composed from the route's
 * authentication checks.
 */
module Registrar {
  import opened Wrappers
  import opened Errors
  import opened ArgumentData
  import opened Utils
  import opened Routes
  import RouteManager
  import Php

  // ---------------------------------------------------------------------
  // parse_args
  // ---------------------------------------------------------------------

  /** `if (present) { $arg[k] = v; }` ahead of the inserts in `rest`. */
  function Opt(k: string, present: bool, v: Value, rest: seq<(string, Value)>): seq<(string, Value)> {
    if present then [(k, v)] + rest else rest
  }

  lemma LookupOpt(k: string, present: bool, v: Value, rest: seq<(string, Value)>, k': string)
    ensures Php.Lookup(Opt(k, present, v, rest), k') == if present && k == k' then Some(v) else Php.Lookup(rest, k')
  {
    if present {
      Php.LookupConcat([(k, v)], rest, k');
    }
  }

  /**
   * One argument's entry in `parse_args`: `validation` and `sanitization` when
   * set, `type`, `required` and `format` when non-null, `description` when
   * non-empty, `expected` when non-null even if empty; never the default.
   */
  function ArgEntry(a: ArgData): seq<(string, Value)> {
    Opt("validation", a.validation.Some?, Fn(a.validation.GetOr(Callback(""))),
    Opt("sanitization", a.sanitization.Some?, Fn(a.sanitization.GetOr(Callback(""))),
    Opt("type", a.typ != Null, a.typ,
    Opt("required", a.required.Some?, Bool(a.required.GetOr(false)),
    Opt("description", a.description != "", Str(a.description),
    Opt("format", a.format.Some?, Str(a.format.GetOr("")),
    Opt("expected", a.expected.Some?, List(a.expected.GetOr([])), [])))))))
  }

  /** The entry's keys, in the order `parse_args` writes them. */
  const ArgEntryKeys := ["validation", "sanitization", "type", "required", "description", "format", "expected"]

  /** `validation` is written exactly when a validation callback is set. */
  lemma ArgEntryValidation(a: ArgData)
    ensures Php.Lookup(ArgEntry(a), "validation") == if a.validation.Some? then Some(Fn(a.validation.value)) else None
  {
    var e7 := Opt("expected", a.expected.Some?, List(a.expected.GetOr([])), []);
    var e6 := Opt("format", a.format.Some?, Str(a.format.GetOr("")), e7);
    var e5 := Opt("description", a.description != "", Str(a.description), e6);
    var e4 := Opt("required", a.required.Some?, Bool(a.required.GetOr(false)), e5);
    var e3 := Opt("type", a.typ != Null, a.typ, e4);
    var e2 := Opt("sanitization", a.sanitization.Some?, Fn(a.sanitization.GetOr(Callback(""))), e3);
    LookupOpt("expected", a.expected.Some?, List(a.expected.GetOr([])), [], "validation");
    LookupOpt("format", a.format.Some?, Str(a.format.GetOr("")), e7, "validation");
    LookupOpt("description", a.description != "", Str(a.description), e6, "validation");
    LookupOpt("required", a.required.Some?, Bool(a.required.GetOr(false)), e5, "validation");
    LookupOpt("type", a.typ != Null, a.typ, e4, "validation");
    LookupOpt("sanitization", a.sanitization.Some?, Fn(a.sanitization.GetOr(Callback(""))), e3, "validation");
    LookupOpt("validation", a.validation.Some?, Fn(a.validation.GetOr(Callback(""))), e2, "validation");
  }

  /** `sanitization` is written exactly when a sanitization callback is set. */
  lemma ArgEntrySanitization(a: ArgData)
    ensures Php.Lookup(ArgEntry(a), "sanitization") == if a.sanitization.Some? then Some(Fn(a.sanitization.value)) else None
  {
    var e7 := Opt("expected", a.expected.Some?, List(a.expected.GetOr([])), []);
    var e6 := Opt("format", a.format.Some?, Str(a.format.GetOr("")), e7);
    var e5 := Opt("description", a.description != "", Str(a.description), e6);
    var e4 := Opt("required", a.required.Some?, Bool(a.required.GetOr(false)), e5);
    var e3 := Opt("type", a.typ != Null, a.typ, e4);
    var e2 := Opt("sanitization", a.sanitization.Some?, Fn(a.sanitization.GetOr(Callback(""))), e3);
    LookupOpt("expected", a.expected.Some?, List(a.expected.GetOr([])), [], "sanitization");
    LookupOpt("format", a.format.Some?, Str(a.format.GetOr("")), e7, "sanitization");
    LookupOpt("description", a.description != "", Str(a.description), e6, "sanitization");
    LookupOpt("required", a.required.Some?, Bool(a.required.GetOr(false)), e5, "sanitization");
    LookupOpt("type", a.typ != Null, a.typ, e4, "sanitization");
    LookupOpt("sanitization", a.sanitization.Some?, Fn(a.sanitization.GetOr(Callback(""))), e3, "sanitization");
    LookupOpt("validation", a.validation.Some?, Fn(a.validation.GetOr(Callback(""))), e2, "sanitization");
  }

  /** `type` is written exactly when the type is non-null, as stored (a name or a list of names). */
  lemma ArgEntryType(a: ArgData)
    ensures Php.Lookup(ArgEntry(a), "type") == if a.typ != Null then Some(a.typ) else None
  {
    var e7 := Opt("expected", a.expected.Some?, List(a.expected.GetOr([])), []);
    var e6 := Opt("format", a.format.Some?, Str(a.format.GetOr("")), e7);
    var e5 := Opt("description", a.description != "", Str(a.description), e6);
    var e4 := Opt("required", a.required.Some?, Bool(a.required.GetOr(false)), e5);
    var e3 := Opt("type", a.typ != Null, a.typ, e4);
    var e2 := Opt("sanitization", a.sanitization.Some?, Fn(a.sanitization.GetOr(Callback(""))), e3);
    LookupOpt("expected", a.expected.Some?, List(a.expected.GetOr([])), [], "type");
    LookupOpt("format", a.format.Some?, Str(a.format.GetOr("")), e7, "type");
    LookupOpt("description", a.description != "", Str(a.description), e6, "type");
    LookupOpt("required", a.required.Some?, Bool(a.required.GetOr(false)), e5, "type");
    LookupOpt("type", a.typ != Null, a.typ, e4, "type");
    LookupOpt("sanitization", a.sanitization.Some?, Fn(a.sanitization.GetOr(Callback(""))), e3, "type");
    LookupOpt("validation", a.validation.Some?, Fn(a.validation.GetOr(Callback(""))), e2, "type");
  }

  /** `required` is written whenever the tri-state is set, so `required(false)` gives `false`. */
  lemma ArgEntryRequired(a: ArgData)
    ensures Php.Lookup(ArgEntry(a), "required") == if a.required.Some? then Some(Bool(a.required.value)) else None
  {
    var e7 := Opt("expected", a.expected.Some?, List(a.expected.GetOr([])), []);
    var e6 := Opt("format", a.format.Some?, Str(a.format.GetOr("")), e7);
    var e5 := Opt("description", a.description != "", Str(a.description), e6);
    var e4 := Opt("required", a.required.Some?, Bool(a.required.GetOr(false)), e5);
    var e3 := Opt("type", a.typ != Null, a.typ, e4);
    var e2 := Opt("sanitization", a.sanitization.Some?, Fn(a.sanitization.GetOr(Callback(""))), e3);
    LookupOpt("expected", a.expected.Some?, List(a.expected.GetOr([])), [], "required");
    LookupOpt("format", a.format.Some?, Str(a.format.GetOr("")), e7, "required");
    LookupOpt("description", a.description != "", Str(a.description), e6, "required");
    LookupOpt("required", a.required.Some?, Bool(a.required.GetOr(false)), e5, "required");
    LookupOpt("type", a.typ != Null, a.typ, e4, "required");
    LookupOpt("sanitization", a.sanitization.Some?, Fn(a.sanitization.GetOr(Callback(""))), e3, "required");
    LookupOpt("validation", a.validation.Some?, Fn(a.validation.GetOr(Callback(""))), e2, "required");
  }

  /** `description` is written exactly when it is non-empty. */
  lemma ArgEntryDescription(a: ArgData)
    ensures Php.Lookup(ArgEntry(a), "description") == if a.description != "" then Some(Str(a.description)) else None
  {
    var e7 := Opt("expected", a.expected.Some?, List(a.expected.GetOr([])), []);
    var e6 := Opt("format", a.format.Some?, Str(a.format.GetOr("")), e7);
    var e5 := Opt("description", a.description != "", Str(a.description), e6);
    var e4 := Opt("required", a.required.Some?, Bool(a.required.GetOr(false)), e5);
    var e3 := Opt("type", a.typ != Null, a.typ, e4);
    var e2 := Opt("sanitization", a.sanitization.Some?, Fn(a.sanitization.GetOr(Callback(""))), e3);
    LookupOpt("expected", a.expected.Some?, List(a.expected.GetOr([])), [], "description");
    LookupOpt("format", a.format.Some?, Str(a.format.GetOr("")), e7, "description");
    LookupOpt("description", a.description != "", Str(a.description), e6, "description");
    LookupOpt("required", a.required.Some?, Bool(a.required.GetOr(false)), e5, "description");
    LookupOpt("type", a.typ != Null, a.typ, e4, "description");
    LookupOpt("sanitization", a.sanitization.Some?, Fn(a.sanitization.GetOr(Callback(""))), e3, "description");
    LookupOpt("validation", a.validation.Some?, Fn(a.validation.GetOr(Callback(""))), e2, "description");
  }

  /** `format` is written exactly when it is set. */
  lemma ArgEntryFormat(a: ArgData)
    ensures Php.Lookup(ArgEntry(a), "format") == if a.format.Some? then Some(Str(a.format.value)) else None
  {
    var e7 := Opt("expected", a.expected.Some?, List(a.expected.GetOr([])), []);
    var e6 := Opt("format", a.format.Some?, Str(a.format.GetOr("")), e7);
    var e5 := Opt("description", a.description != "", Str(a.description), e6);
    var e4 := Opt("required", a.required.Some?, Bool(a.required.GetOr(false)), e5);
    var e3 := Opt("type", a.typ != Null, a.typ, e4);
    var e2 := Opt("sanitization", a.sanitization.Some?, Fn(a.sanitization.GetOr(Callback(""))), e3);
    LookupOpt("expected", a.expected.Some?, List(a.expected.GetOr([])), [], "format");
    LookupOpt("format", a.format.Some?, Str(a.format.GetOr("")), e7, "format");
    LookupOpt("description", a.description != "", Str(a.description), e6, "format");
    LookupOpt("required", a.required.Some?, Bool(a.required.GetOr(false)), e5, "format");
    LookupOpt("type", a.typ != Null, a.typ, e4, "format");
    LookupOpt("sanitization", a.sanitization.Some?, Fn(a.sanitization.GetOr(Callback(""))), e3, "format");
    LookupOpt("validation", a.validation.Some?, Fn(a.validation.GetOr(Callback(""))), e2, "format");
  }

  /** `expected` is written whenever it is set, even as an empty list. */
  lemma ArgEntryExpected(a: ArgData)
    ensures Php.Lookup(ArgEntry(a), "expected") == if a.expected.Some? then Some(List(a.expected.value)) else None
  {
    var e7 := Opt("expected", a.expected.Some?, List(a.expected.GetOr([])), []);
    var e6 := Opt("format", a.format.Some?, Str(a.format.GetOr("")), e7);
    var e5 := Opt("description", a.description != "", Str(a.description), e6);
    var e4 := Opt("required", a.required.Some?, Bool(a.required.GetOr(false)), e5);
    var e3 := Opt("type", a.typ != Null, a.typ, e4);
    var e2 := Opt("sanitization", a.sanitization.Some?, Fn(a.sanitization.GetOr(Callback(""))), e3);
    LookupOpt("expected", a.expected.Some?, List(a.expected.GetOr([])), [], "expected");
    LookupOpt("format", a.format.Some?, Str(a.format.GetOr("")), e7, "expected");
    LookupOpt("description", a.description != "", Str(a.description), e6, "expected");
    LookupOpt("required", a.required.Some?, Bool(a.required.GetOr(false)), e5, "expected");
    LookupOpt("type", a.typ != Null, a.typ, e4, "expected");
    LookupOpt("sanitization", a.sanitization.Some?, Fn(a.sanitization.GetOr(Callback(""))), e3, "expected");
    LookupOpt("validation", a.validation.Some?, Fn(a.validation.GetOr(Callback(""))), e2, "expected");
  }

  /** Keys other than the seven (`default`, `name`, `enum`, ...) never appear. */
  lemma ArgEntryOtherKeys(a: ArgData, k: string)
    requires k !in ArgEntryKeys
    ensures Php.Lookup(ArgEntry(a), k) == None
  {
    var e7 := Opt("expected", a.expected.Some?, List(a.expected.GetOr([])), []);
    var e6 := Opt("format", a.format.Some?, Str(a.format.GetOr("")), e7);
    var e5 := Opt("description", a.description != "", Str(a.description), e6);
    var e4 := Opt("required", a.required.Some?, Bool(a.required.GetOr(false)), e5);
    var e3 := Opt("type", a.typ != Null, a.typ, e4);
    var e2 := Opt("sanitization", a.sanitization.Some?, Fn(a.sanitization.GetOr(Callback(""))), e3);
    LookupOpt("expected", a.expected.Some?, List(a.expected.GetOr([])), [], k);
    LookupOpt("format", a.format.Some?, Str(a.format.GetOr("")), e7, k);
    LookupOpt("description", a.description != "", Str(a.description), e6, k);
    LookupOpt("required", a.required.Some?, Bool(a.required.GetOr(false)), e5, k);
    LookupOpt("type", a.typ != Null, a.typ, e4, k);
    LookupOpt("sanitization", a.sanitization.Some?, Fn(a.sanitization.GetOr(Callback(""))), e3, k);
    LookupOpt("validation", a.validation.Some?, Fn(a.validation.GetOr(Callback(""))), e2, k);
  }

  /** A default value is never passed on, whatever it is. */
  lemma ArgEntryOmitsDefault(a: ArgData)
    ensures Php.Lookup(ArgEntry(a), "default") == None
  {
    ArgEntryOtherKeys(a, "default");
  }

  /** `$args` after the `foreach`: each argument's entry under its key, a later key replacing an earlier one in place. */
  function ArgsMap(args: seq<ArgData>): seq<(string, Value)>
    decreases |args|
  {
    if args == [] then []
    else
      var last := args[|args| - 1];
      Php.Put(ArgsMap(args[..|args| - 1]), last.key, Assoc(ArgEntry(last)))
  }

  /** `parse_args($route)`: the loop over the route's arguments. */
  method ParseArgs(args: seq<ArgData>) returns (r: seq<(string, Value)>)
    ensures r == ArgsMap(args)
  {
    r := [];
    var i := 0;
    while i < |args|
      invariant 0 <= i <= |args|
      invariant r == ArgsMap(args[..i])
    {
      assert args[..i + 1][..i] == args[..i];
      r := Php.Put(r, args[i].key, Assoc(ArgEntry(args[i])));
      i := i + 1;
    }
    assert args[..i] == args;
  }

  /** A key is in the argument map exactly when some argument has it. */
  lemma {:induction false} ArgsMapKeys(args: seq<ArgData>, k: string)
    ensures Php.Lookup(ArgsMap(args), k).Some? <==> exists i :: 0 <= i < |args| && args[i].key == k
    decreases |args|
  {
    if args != [] {
      var n := |args| - 1;
      var init := args[..n];
      var m := ArgsMap(init);
      assert Php.Lookup(ArgsMap(args), k).Some? <==> args[n].key == k || Php.Lookup(m, k).Some? by {
        assert ArgsMap(args) == Php.Put(m, args[n].key, Assoc(ArgEntry(args[n])));
        Php.PutLookup(m, args[n].key, Assoc(ArgEntry(args[n])), k);
      }
      ArgsMapKeys(init, k);
      assert (exists i :: 0 <= i < |args| && args[i].key == k)
         <==> args[n].key == k || exists i :: 0 <= i < n && init[i].key == k by {
        if exists i :: 0 <= i < |args| && args[i].key == k {
          var i :| 0 <= i < |args| && args[i].key == k;
          if i < n {
            assert init[i] == args[i];
          }
        }
        if exists i :: 0 <= i < n && init[i].key == k {
          var i :| 0 <= i < n && init[i].key == k;
          assert args[i] == init[i];
        }
      }
    }
  }

  /** The key of argument `i` holds `i`'s entry when no later argument shares the key: the last one wins. */
  lemma {:induction false} ArgsMapLastWins(args: seq<ArgData>, i: int)
    requires 0 <= i < |args|
    requires forall j :: i < j < |args| ==> args[j].key != args[i].key
    ensures Php.Lookup(ArgsMap(args), args[i].key) == Some(Assoc(ArgEntry(args[i])))
    decreases |args|
  {
    var n := |args| - 1;
    var init, k := args[..n], args[i].key;
    var m := ArgsMap(init);
    assert Php.Lookup(ArgsMap(args), k) == if args[n].key == k then Some(Assoc(ArgEntry(args[n]))) else Php.Lookup(m, k) by {
      assert ArgsMap(args) == Php.Put(m, args[n].key, Assoc(ArgEntry(args[n])));
      Php.PutLookup(m, args[n].key, Assoc(ArgEntry(args[n])), k);
    }
    if i < n {
      assert Php.Lookup(m, k) == Some(Assoc(ArgEntry(args[i]))) by {
        assert init[i] == args[i];
        forall j | i < j < |init|
          ensures init[j].key != init[i].key
        {
          assert init[j] == args[j];
        }
        ArgsMapLastWins(init, i);
      }
      assert args[n].key != k;
    }
  }

  /** No key appears twice in the argument map. */
  lemma {:induction false} ArgsMapUnique(args: seq<ArgData>)
    ensures Php.UniqueKeys(ArgsMap(args))
    decreases |args|
  {
    if args != [] {
      var n := |args| - 1;
      ArgsMapUnique(args[..n]);
      Php.PutUnique(ArgsMap(args[..n]), args[n].key, Assoc(ArgEntry(args[n])));
    }
  }

  // ---------------------------------------------------------------------
  // compose_permission_callback
  // ---------------------------------------------------------------------

  /** WordPress's `__return_true`. */
  function ReturnTrue(): Callable {
    v => Bool(true)
  }

  /**
   * `compose_permission_callback`: `__return_true` for no checks, the single
   * check itself for one, the all-true composition for more.
   */
  function ComposePermissionCallback(cs: seq<Callable>): (f: Callable)
    ensures |cs| == 1 ==> f == cs[0]
  {
    if |cs| == 0 then ReturnTrue()
    else if |cs| == 1 then cs[0]
    else ComposeAllTrue(cs)
  }

  /** Whatever the number of checks, the permission callback lets a request through exactly when every check does. */
  lemma PermissionCallbackAllTrue(cs: seq<Callable>, request: Value)
    ensures Truthy(ComposePermissionCallback(cs)(request)) <==> AllTrue(cs, request)
  {
    if |cs| == 1 {
      assert AllTrue(cs, request) <==> Truthy(cs[0](request));
    }
  }

  /** The permission callback of a route, its unset authentication list read as empty. */
  function PermissionCallback(d: RouteData): Callable {
    ComposePermissionCallback(Authentication(d.authentication))
  }

  /**
   * A flattened group route admits a request exactly when every group check
   * and every check of the member route does.
   */
  lemma UnpackedPermission(m: string, g: RouteManager.RouteGroupData, member: RouteData, request: Value)
    ensures Truthy(PermissionCallback(RouteManager.Unpacked(m, g, member))(request))
        <==> AllTrue(Authentication(g.authentication), request) && AllTrue(Authentication(member.authentication), request)
  {
    RouteManager.UnpackedRoute(m, g, member);
    PermissionCallbackAllTrue(Authentication(RouteManager.Unpacked(m, g, member).authentication), request);
    AllTrueConcat(Authentication(g.authentication), Authentication(member.authentication), request);
  }

  // ---------------------------------------------------------------------
  // compose_conditional_any_true
  // ---------------------------------------------------------------------

  /**
   * `compose_conditional_any_true` as written: its parameter is `$callable`
   * but the closure captures `$callables`, which is undefined, so the closure
   * loops over null, runs no iteration and returns false.
   */
  function RegistrarAnyTrueAsWritten(cs: seq<Callable>): Callable {
    v => Bool(AnyTrue([], v))
  }

  /** A single check that accepts everything is rejected by the composition as written, and accepted by `Utils.ComposeAnyTrue`. */
  lemma RegistrarAnyTrueRejects(request: Value)
    ensures RegistrarAnyTrueAsWritten([ReturnTrue()])(request) == Bool(false)
    ensures ComposeAnyTrue([ReturnTrue()])(request) == Bool(true)
  {
    assert Truthy([ReturnTrue()][0](request));
  }

  // ---------------------------------------------------------------------
  // parse_options and map_to_wp_rest
  // ---------------------------------------------------------------------

  /** The options array `parse_options` builds: exactly these four keys. */
  datatype WpOptions = WpOptions(
    methods: string,
    callback: Callback,
    permissionCallback: Callable,
    args: seq<(string, Value)>)

  /** `WP_Rest_Route`: the record handed to `register_rest_route`. */
  datatype WpRestRoute = WpRestRoute(
    namespace: string,
    route: string,
    args: WpOptions,
    override: bool)

  /** `parse_options($route)`: fails only when the route has no callback. */
  function Options(d: RouteData): (r: Result<WpOptions, Exception>)
    ensures r.Success? <==> d.callback.Some?
    ensures r.Failure? ==> r.error == TypeErrorOf(NullCallbackMessage)
    ensures r.Success? ==> r.value.methods == d.verb && r.value.callback == d.callback.value
    ensures r.Success? ==> r.value.permissionCallback == PermissionCallback(d)
    ensures r.Success? ==> r.value.args == ArgsMap(d.arguments)
  {
    var callback :- GetCallback(d.callback);
    Success(WpOptions(d.verb, callback, PermissionCallback(d), ArgsMap(d.arguments)))
  }

  method ParseOptions(route: Route) returns (r: Result<WpOptions, Exception>)
    ensures r == Options(route.Data())
  {
    var callback := GetCallback(route.callback);
    if callback.Failure? {
      return Failure(callback.error);
    }
    var args := ParseArgs(route.arguments);
    r := Success(WpOptions(route.verb, callback.value, PermissionCallback(route.Data()), args));
  }

  /** `map_to_wp_rest($route)`: the route's namespace and path with its options, never overriding. */
  function WpRest(d: RouteData): (r: Result<WpRestRoute, Exception>)
    ensures r.Success? <==> Options(d).Success?
    ensures r.Failure? ==> r.error == Options(d).error
    ensures r.Success? ==> r.value == WpRestRoute(d.namespace, d.route, Options(d).value, false)
  {
    var options :- Options(d);
    Success(WpRestRoute(d.namespace, d.route, options, false))
  }

  method MapToWpRest(route: Route) returns (r: Result<WpRestRoute, Exception>)
    ensures r == WpRest(route.Data())
  {
    var options := ParseOptions(route);
    if options.Failure? {
      return Failure(options.error);
    }
    r := Success(WpRestRoute(route.namespace, route.route, options.value, false));
  }

  /**
   * A route flattened out of a group carries no callback, so passing it to
   * `map_to_wp_rest` raises the callable-return TypeError.
   */
  lemma UnpackedRouteHasNoCallback(m: string, g: RouteManager.RouteGroupData, member: RouteData)
    ensures WpRest(RouteManager.Unpacked(m, g, member)) == Failure(TypeErrorOf(NullCallbackMessage))
  {
  }

  /**
   * With the member's callback carried over, a flattened route registers
   * exactly when the member has a callback: under the group's namespace and
   * path, for the upper-cased method, with the member's callback, the group's
   * arguments then the member's, and a permission check that admits a
   * request exactly when every group check and every member check does.
   */
  lemma UnpackedWithCallbackMaps(m: string, g: RouteManager.RouteGroupData, member: RouteData, request: Value)
    ensures WpRest(RouteManager.UnpackedWithCallback(m, g, member)).Success? <==> member.callback.Some?
    ensures var r := WpRest(RouteManager.UnpackedWithCallback(m, g, member));
      r.Success? ==>
        && r.value.namespace == g.namespace && r.value.route == g.route && !r.value.override
        && r.value.args.methods == Php.Upper(m) && r.value.args.callback == member.callback.value
        && r.value.args.args == ArgsMap(g.arguments + member.arguments)
        && (Truthy(r.value.args.permissionCallback(request))
            <==> AllTrue(Authentication(g.authentication), request) && AllTrue(Authentication(member.authentication), request))
  {
    var d := RouteManager.UnpackedWithCallback(m, g, member);
    PermissionCallbackAllTrue(Authentication(d.authentication), request);
    AllTrueConcat(Authentication(g.authentication), Authentication(member.authentication), request);
  }
}
