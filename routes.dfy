/**
 * The route model: `Abstract_Route`/`Route` (one HTTP method on one path),
 * `Route_Group` (several methods on one path, sharing namespace, arguments
 * and authentication) and `Route_Factory` (routes under a fixed namespace).
 * Both setter spellings of the routing classes (`namespace`/`set_namespace`,
 * `callback`/`set_callback`, `authentication`/`add_authentication`) are the
 * same methods here.
 */
module Routes {
  import opened Wrappers
  import opened Errors
  import opened ArgumentData
  import opened Utils
  import Php

  const GET := "GET"
  const POST := "POST"
  const PATCH := "PATCH"
  const PUT := "PUT"
  const DELETE := "DELETE"

  /** A route's state as a value. `authentication` is `None` until the first callback is added. */
  datatype RouteData = RouteData(
    verb: string,
    route: string,
    namespace: string,
    arguments: seq<ArgData>,
    authentication: Option<seq<Callable>>,
    callback: Option<Callback>)

  /** `new Route($method, $route)`: empty namespace, no arguments, authentication or callback. */
  function NewRoute(verb: string, route: string): RouteData {
    RouteData(verb, route, "", [], None, None)
  }

  // ---------------------------------------------------------------------
  // Authentication lists
  // ---------------------------------------------------------------------

  const NullAuthenticationMessage := "Return value must be of type array, null returned"

  /**
   * `get_authentication()` as written: the `$authentication` property has no
   * initial value, so before the first callback is added the getter returns
   * null through its `array` return type, which raises a TypeError.
   */
  function GetAuthentication(auth: Option<seq<Callable>>): (r: Result<seq<Callable>, Exception>)
    ensures r.Failure? <==> auth.None?
    ensures r.Failure? ==> r.error == TypeErrorOf(NullAuthenticationMessage)
    ensures r.Success? ==> r.value == auth.value
  {
    if auth.None? then Failure(TypeErrorOf(NullAuthenticationMessage)) else Success(auth.value)
  }

  /** The authentication callbacks, an unset list read as the empty list. */
  function Authentication(auth: Option<seq<Callable>>): (r: seq<Callable>)
    ensures auth.None? ==> r == []
    ensures GetAuthentication(auth).Success? ==> r == GetAuthentication(auth).value
  {
    auth.GetOr([])
  }

  /** `$this->authentication[] = $cb`: creates the list on first use, appends after. */
  function AddedAuthentication(auth: Option<seq<Callable>>, c: Callable): (r: Option<seq<Callable>>)
    ensures r.Some? && Authentication(r) == Authentication(auth) + [c]
  {
    Some(Authentication(auth) + [c])
  }

  /**
   * The getter of a route that never had a callback added raises a TypeError,
   * where the intended answer is the empty list; after one `authentication()`
   * call it succeeds with the callbacks in the order added.
   */
  lemma AuthenticationUnsetFails(verb: string, route: string, c: Callable)
    ensures GetAuthentication(NewRoute(verb, route).authentication).Failure?
    ensures Authentication(NewRoute(verb, route).authentication) == []
    ensures GetAuthentication(AddedAuthentication(NewRoute(verb, route).authentication, c)) == Success([c])
  {
    assert [] + [c] == [c];
  }

  /**
   * The compiled check of `compile_authentication()` accepts a request exactly
   * when every callback added so far accepts it; the closure reads the list
   * when called, so a callback added later counts too. A `foreach` over the
   * unset list runs no iteration, so it accepts everything.
   */
  lemma CompiledAuthentication(auth: Option<seq<Callable>>, c: Callable, request: Value)
    ensures auth.None? ==> Truthy(ComposeAllTrue(Authentication(auth))(request))
    ensures Truthy(ComposeAllTrue(Authentication(AddedAuthentication(auth, c)))(request))
        <==> Truthy(ComposeAllTrue(Authentication(auth))(request)) && Truthy(c(request))
  {
    AllTrueConcat(Authentication(auth), [c], request);
    assert [c][0] == c;
  }

  const NullCallbackMessage := "Return value must be of type callable, null returned"

  /** `get_callback()`: a route whose callback was never set returns null through a `callable` return type. */
  function GetCallback(callback: Option<Callback>): (r: Result<Callback, Exception>)
    ensures r.Success? <==> callback.Some?
    ensures r.Success? ==> r.value == callback.value
    ensures r.Failure? ==> r.error == TypeErrorOf(NullCallbackMessage)
  {
    if callback.None? then Failure(TypeErrorOf(NullCallbackMessage)) else Success(callback.value)
  }

  // ---------------------------------------------------------------------
  // with_method
  // ---------------------------------------------------------------------

  /**
   * `with_method($m)`: a new route on the same path under method `m`, with the
   * same arguments, authentication and callback; a namespace PHP's `empty()`
   * considers empty ("" or "0") is not copied, and an empty authentication
   * list stays unset.
   */
  function Cloned(d: RouteData, m: string): RouteData {
    RouteData(m, d.route,
      if Php.IsEmptyString(d.namespace) then "" else d.namespace,
      d.arguments,
      if d.authentication.Some? && d.authentication.value != [] then d.authentication else None,
      d.callback)
  }

  /** The clone differs from the original only in its method, and in a namespace of "0". */
  lemma ClonedKeepsRoute(d: RouteData, m: string)
    ensures Cloned(d, m).verb == m && Cloned(d, m).route == d.route
    ensures Cloned(d, m).arguments == d.arguments && Cloned(d, m).callback == d.callback
    ensures Authentication(Cloned(d, m).authentication) == Authentication(d.authentication)
    ensures Cloned(d, m).namespace == if d.namespace == "0" then "" else d.namespace
    ensures Cloned(Cloned(d, m), d.verb) == d.(namespace := Cloned(d, m).namespace,
                                                 authentication := Cloned(d, m).authentication)
  {
  }

  // ---------------------------------------------------------------------
  // Route
  // ---------------------------------------------------------------------

  class Route {
    const verb: string
    const route: string
    var namespace: string
    var arguments: seq<ArgData>
    var authentication: Option<seq<Callable>>
    var callback: Option<Callback>

    function Data(): RouteData
      reads this
    {
      RouteData(verb, route, namespace, arguments, authentication, callback)
    }

    /** `new Route($method, $route)`: the path is kept verbatim. */
    constructor(verb: string, route: string)
      ensures Data() == NewRoute(verb, route)
    {
      this.verb := verb;
      this.route := route;
      namespace := "";
      arguments := [];
      authentication := None;
      callback := None;
    }

    /** `namespace($ns)` / `set_namespace($ns)`. */
    method SetNamespace(ns: string)
      modifies this
      ensures Data() == old(Data()).(namespace := ns)
    {
      namespace := ns;
    }

    /** `argument($a)`: appends, so an argument with a key already present is added again. */
    method AddArgument(a: ArgData)
      modifies this
      ensures Data() == old(Data()).(arguments := old(arguments) + [a])
    {
      arguments := arguments + [a];
    }

    /** `authentication($cb)` / `add_authentication($cb)`. */
    method AddAuthentication(c: Callable)
      modifies this
      ensures Data() == old(Data()).(authentication := AddedAuthentication(old(authentication), c))
    {
      authentication := AddedAuthentication(authentication, c);
    }

    /** `callback($cb)` / `set_callback($cb)`. */
    method SetCallback(cb: Callback)
      modifies this
      ensures Data() == old(Data()).(callback := Some(cb))
    {
      callback := Some(cb);
    }

    /** `with_method($m)`: copies the route onto a new object one field at a time. */
    method WithMethod(m: string) returns (clone: Route)
      ensures fresh(clone)
      ensures clone.Data() == Cloned(Data(), m)
    {
      clone := new Route(m, route);
      var i := 0;
      while i < |arguments|
        invariant 0 <= i <= |arguments|
        invariant clone.Data() == NewRoute(m, route).(arguments := arguments[..i])
      {
        clone.AddArgument(arguments[i]);
        i := i + 1;
      }
      assert arguments[..i] == arguments;
      if authentication.Some? && authentication.value != [] {
        var auths := authentication.value;
        var j := 0;
        while j < |auths|
          invariant 0 <= j <= |auths|
          invariant clone.Data() ==
            NewRoute(m, route).(arguments := arguments, authentication := if j == 0 then None else Some(auths[..j]))
        {
          clone.AddAuthentication(auths[j]);
          assert auths[..j + 1] == auths[..j] + [auths[j]];
          j := j + 1;
        }
        assert auths[..j] == auths;
      }
      if callback.Some? {
        clone.SetCallback(callback.value);
      }
      if !Php.IsEmptyString(namespace) {
        clone.SetNamespace(namespace);
      }
    }
  }

  // ---------------------------------------------------------------------
  // Route_Factory
  // ---------------------------------------------------------------------

  /** The route `request($method, $route, $cb)` builds under namespace `ns`. */
  function Requested(verb: string, route: string, ns: string, cb: Callback): (d: RouteData)
    ensures d.verb == verb && d.route == route && d.namespace == ns
    ensures d.arguments == [] && Authentication(d.authentication) == [] && d.callback == Some(cb)
  {
    NewRoute(verb, route).(namespace := ns, callback := Some(cb))
  }

  class RouteFactory {
    const namespace: string

    constructor(namespace: string)
      ensures this.namespace == namespace
    {
      this.namespace := namespace;
    }

    /** `request($method, $route, $cb)`: a new route with the callback, under the factory's namespace. */
    method Request(verb: string, route: string, cb: Callback) returns (r: Route)
      ensures fresh(r) && r.Data() == Requested(verb, route, namespace, cb)
    {
      r := new Route(verb, route);
      r.SetCallback(cb);
      r.SetNamespace(namespace);
    }

    method Get(route: string, cb: Callback) returns (r: Route)
      ensures fresh(r) && r.Data() == Requested(GET, route, namespace, cb)
    {
      r := Request(GET, route, cb);
    }

    method Post(route: string, cb: Callback) returns (r: Route)
      ensures fresh(r) && r.Data() == Requested(POST, route, namespace, cb)
    {
      r := Request(POST, route, cb);
    }

    method Put(route: string, cb: Callback) returns (r: Route)
      ensures fresh(r) && r.Data() == Requested(PUT, route, namespace, cb)
    {
      r := Request(PUT, route, cb);
    }

    method Patch(route: string, cb: Callback) returns (r: Route)
      ensures fresh(r) && r.Data() == Requested(PATCH, route, namespace, cb)
    {
      r := Request(PATCH, route, cb);
    }

    method Delete(route: string, cb: Callback) returns (r: Route)
      ensures fresh(r) && r.Data() == Requested(DELETE, route, namespace, cb)
    {
      r := Request(DELETE, route, cb);
    }

    /** `group_builder($route, $config)` before the config runs: a new group under the factory's namespace. */
    method GroupBuilder(route: string) returns (g: RouteGroup)
      ensures fresh(g) && fresh(g.factory)
      ensures g.namespace == namespace && g.route == route && g.Valid()
      ensures g.routes == [] && g.arguments == [] && g.authentication == None
    {
      g := new RouteGroup(namespace, route);
    }
  }

  // ---------------------------------------------------------------------
  // Route_Group
  // ---------------------------------------------------------------------

  /** A key of the group's route array: a method name, or the next integer for `add_rest_route`. */
  datatype RouteKey = Named(name: string) | Index(i: int)

  /** The key `$routes[] = ...` uses: one past the largest integer key, 0 when there is none. */
  function NextIndex(keys: seq<RouteKey>): (n: nat)
    ensures forall i :: 0 <= i < |keys| && keys[i].Index? ==> keys[i].i < n
  {
    if keys == [] then 0
    else
      var rest := NextIndex(keys[1..]);
      assert forall i :: 1 <= i < |keys| ==> keys[i] == keys[1..][i - 1];
      if keys[0].Index? && keys[0].i >= rest then keys[0].i + 1 else rest
  }

  /** The appended key is new, so `add_rest_route` never replaces a route. */
  lemma NextIndexIsNew<V>(routes: seq<(RouteKey, V)>)
    ensures Index(NextIndex(Php.Keys(routes))) !in Php.Keys(routes)
  {
  }

  class RouteGroup {
    var namespace: string
    const route: string
    const factory: RouteFactory
    var routes: seq<(RouteKey, Route)>
    var arguments: seq<ArgData>
    var authentication: Option<seq<Callable>>

    /** The route array never holds a key twice. */
    ghost predicate Valid()
      reads this
    {
      Php.UniqueKeys(routes)
    }

    /** `new Route_Group($namespace, $route)`, with a factory for that namespace. */
    constructor(namespace: string, route: string)
      ensures this.namespace == namespace && this.route == route
      ensures fresh(factory) && factory.namespace == namespace
      ensures routes == [] && arguments == [] && authentication == None
      ensures Valid()
    {
      this.namespace := namespace;
      this.route := route;
      factory := new RouteFactory(namespace);
      routes := [];
      arguments := [];
      authentication := None;
    }

    /** `set_namespace($ns)`: later routes take it; routes already created keep theirs. */
    method SetNamespace(ns: string)
      modifies this
      ensures namespace == ns && routes == old(routes)
      ensures arguments == old(arguments) && authentication == old(authentication)
    {
      namespace := ns;
    }

    /** `$this->routes[$method] = $route`: a method declared twice keeps its place and takes the new route. */
    method Store(verb: string, r: Route)
      requires Valid()
      modifies this
      ensures routes == Php.Put(old(routes), Named(verb), r) && Valid()
      ensures namespace == old(namespace) && arguments == old(arguments) && authentication == old(authentication)
    {
      Php.PutUnique(routes, Named(verb), r);
      routes := Php.Put(routes, Named(verb), r);
    }

    /** `get($cb)`: a GET route on the group's path, under the group's current namespace. */
    method Get(cb: Callback) returns (r: Route)
      requires Valid()
      modifies this
      ensures fresh(r) && r.Data() == Requested(GET, route, namespace, cb)
      ensures routes == Php.Put(old(routes), Named(GET), r) && Valid()
      ensures namespace == old(namespace) && arguments == old(arguments) && authentication == old(authentication)
    {
      r := factory.Get(route, cb);
      r.SetNamespace(namespace);
      Store(GET, r);
    }

    method Post(cb: Callback) returns (r: Route)
      requires Valid()
      modifies this
      ensures fresh(r) && r.Data() == Requested(POST, route, namespace, cb)
      ensures routes == Php.Put(old(routes), Named(POST), r) && Valid()
      ensures namespace == old(namespace) && arguments == old(arguments) && authentication == old(authentication)
    {
      r := factory.Post(route, cb);
      r.SetNamespace(namespace);
      Store(POST, r);
    }

    method Put(cb: Callback) returns (r: Route)
      requires Valid()
      modifies this
      ensures fresh(r) && r.Data() == Requested(PUT, route, namespace, cb)
      ensures routes == Php.Put(old(routes), Named(PUT), r) && Valid()
      ensures namespace == old(namespace) && arguments == old(arguments) && authentication == old(authentication)
    {
      r := factory.Put(route, cb);
      r.SetNamespace(namespace);
      Store(PUT, r);
    }

    method Patch(cb: Callback) returns (r: Route)
      requires Valid()
      modifies this
      ensures fresh(r) && r.Data() == Requested(PATCH, route, namespace, cb)
      ensures routes == Php.Put(old(routes), Named(PATCH), r) && Valid()
      ensures namespace == old(namespace) && arguments == old(arguments) && authentication == old(authentication)
    {
      r := factory.Patch(route, cb);
      r.SetNamespace(namespace);
      Store(PATCH, r);
    }

    method Delete(cb: Callback) returns (r: Route)
      requires Valid()
      modifies this
      ensures fresh(r) && r.Data() == Requested(DELETE, route, namespace, cb)
      ensures routes == Php.Put(old(routes), Named(DELETE), r) && Valid()
      ensures namespace == old(namespace) && arguments == old(arguments) && authentication == old(authentication)
    {
      r := factory.Delete(route, cb);
      r.SetNamespace(namespace);
      Store(DELETE, r);
    }

    /** `add_rest_route($r)`: appended under the next integer key, whatever its method. */
    method AddRestRoute(r: Route)
      requires Valid()
      modifies this
      ensures routes == old(routes) + [(Index(NextIndex(Php.Keys(old(routes)))), r)] && Valid()
      ensures namespace == old(namespace) && arguments == old(arguments) && authentication == old(authentication)
    {
      var k := Index(NextIndex(Php.Keys(routes)));
      NextIndexIsNew(routes);
      Php.PutAppend(routes, k, r);
      Php.PutUnique(routes, k, r);
      routes := routes + [(k, r)];
    }

    /** `has_routes()`. */
    function HasRoutes(): (b: bool)
      reads this
      ensures b <==> |Php.Keys(routes)| > 0
    {
      routes != []
    }

    /** The group-level argument every unpacked route starts with. */
    method Argument(a: ArgData)
      modifies this
      ensures arguments == old(arguments) + [a] && routes == old(routes)
      ensures namespace == old(namespace) && authentication == old(authentication)
    {
      arguments := arguments + [a];
    }

    /** `add_authentication($cb)`: a check every unpacked route runs before its own. */
    method AddAuthentication(c: Callable)
      modifies this
      ensures authentication == AddedAuthentication(old(authentication), c) && routes == old(routes)
      ensures namespace == old(namespace) && arguments == old(arguments)
      ensures forall v :: AuthenticationPasses(v) <==> old(AuthenticationPasses(v)) && Truthy(c(v))
    {
      authentication := AddedAuthentication(authentication, c);
      forall v
        ensures AuthenticationPasses(v) <==> old(AuthenticationPasses(v)) && Truthy(c(v))
      {
        CompiledAuthentication(old(authentication), c, v);
      }
    }

    /** Calling the closure `compile_authentication()` returned, with the callbacks added by now. */
    predicate AuthenticationPasses(request: Value)
      reads this
    {
      Truthy(ComposeAllTrue(Authentication(authentication))(request))
    }
  }
}
