/**
 * `Route_Manager::unpack_group`: flattens a group into one route per declared
 * method, each carrying the group's namespace, arguments and authentication
 * ahead of the member route's own.
 */
module RouteManager {
  import opened Wrappers
  import opened Errors
  import opened ArgumentData
  import opened Utils
  import opened Routes
  import Php

  /** `$this->authentication[] = $cb` for each of `cs` in turn: an empty `cs` leaves an unset list unset. */
  function AddedAll(auth: Option<seq<Callable>>, cs: seq<Callable>): (r: Option<seq<Callable>>)
    ensures Authentication(r) == Authentication(auth) + cs
    ensures r.None? <==> auth.None? && cs == []
  {
    if cs == [] then auth else Some(Authentication(auth) + cs)
  }

  /** Adding a list is adding its callbacks one at a time. */
  lemma AddedAllStep(auth: Option<seq<Callable>>, cs: seq<Callable>, c: Callable)
    ensures AddedAll(auth, cs + [c]) == AddedAuthentication(AddedAll(auth, cs), c)
  {
    if cs == [] {
      assert cs + [c] == [c];
    } else {
      assert Authentication(auth) + (cs + [c]) == (Authentication(auth) + cs) + [c];
    }
  }

  /** `foreach ($args as $a) { $route->argument($a); }`. */
  method AddArguments(r: Route, args: seq<ArgData>)
    modifies r
    ensures r.Data() == old(r.Data()).(arguments := old(r.arguments) + args)
  {
    var i := 0;
    while i < |args|
      invariant 0 <= i <= |args|
      invariant r.Data() == old(r.Data()).(arguments := old(r.arguments) + args[..i])
    {
      r.AddArgument(args[i]);
      assert args[..i + 1] == args[..i] + [args[i]];
      i := i + 1;
    }
    assert args[..i] == args;
  }

  /** `foreach ($cs as $c) { $route->authentication($c); }`. */
  method AddAuthentications(r: Route, cs: seq<Callable>)
    modifies r
    ensures r.Data() == old(r.Data()).(authentication := AddedAll(old(r.authentication), cs))
  {
    var i := 0;
    while i < |cs|
      invariant 0 <= i <= |cs|
      invariant r.Data() == old(r.Data()).(authentication := AddedAll(old(r.authentication), cs[..i]))
    {
      r.AddAuthentication(cs[i]);
      assert cs[..i + 1] == cs[..i] + [cs[i]];
      AddedAllStep(old(r.authentication), cs[..i], cs[i]);
      i := i + 1;
    }
    assert cs[..i] == cs;
  }

  /**
   * The route `create_base_route_from_group($m, $g)` builds: method upper-cased,
   * the group's path and namespace, the group's authentication, then its
   * arguments; no callback.
   */
  function BaseRoute(m: string, g: RouteGroupData): RouteData {
    RouteData(Php.Upper(m), g.route, g.namespace, g.arguments, AddedAll(None, Authentication(g.authentication)), None)
  }

  /** The parts of a group `unpack_group` reads. */
  datatype RouteGroupData = RouteGroupData(
    namespace: string,
    route: string,
    arguments: seq<ArgData>,
    authentication: Option<seq<Callable>>)

  function GroupData(g: RouteGroup): RouteGroupData
    reads g
  {
    RouteGroupData(g.namespace, g.route, g.arguments, g.authentication)
  }

  /** The route `unpack_group` produces for member `member` stored under method `m`. */
  function Unpacked(m: string, g: RouteGroupData, member: RouteData): RouteData {
    var base := BaseRoute(m, g);
    base.(arguments := base.arguments + member.arguments,
          authentication := AddedAll(base.authentication, Authentication(member.authentication)))
  }

  /**
   * What a flattened route carries: the upper-cased method, the group's path and
   * namespace, the group's arguments then the member's, the group's checks then
   * the member's, and no callback, whatever the member route's own method,
   * path, namespace and callback were.
   */
  lemma UnpackedRoute(m: string, g: RouteGroupData, member: RouteData)
    ensures Unpacked(m, g, member).verb == Php.Upper(m)
    ensures Unpacked(m, g, member).route == g.route && Unpacked(m, g, member).namespace == g.namespace
    ensures Unpacked(m, g, member).arguments == g.arguments + member.arguments
    ensures Authentication(Unpacked(m, g, member).authentication)
         == Authentication(g.authentication) + Authentication(member.authentication)
    ensures Unpacked(m, g, member).callback == None
  {
  }

  /**
   * The route `unpack_group` evidently means to produce for a member: the
   * flattened route above, carrying the member's own callback, which
   * `create_base_route_from_group` never copies.
   */
  function UnpackedWithCallback(m: string, g: RouteGroupData, member: RouteData): (r: RouteData)
    ensures r.callback == member.callback
    ensures r.verb == Php.Upper(m) && r.route == g.route && r.namespace == g.namespace
    ensures r.arguments == g.arguments + member.arguments
    ensures Authentication(r.authentication) == Authentication(g.authentication) + Authentication(member.authentication)
  {
    UnpackedRoute(m, g, member);
    Unpacked(m, g, member).(callback := member.callback)
  }

  const StringMethodMessage := "Argument #1 ($method) must be of type string, int given"

  /** `create_base_route_from_group($m, $g)`. */
  method CreateBaseRoute(m: string, g: RouteGroup) returns (r: Route)
    ensures fresh(r) && r.Data() == BaseRoute(m, GroupData(g))
  {
    r := new Route(Php.Upper(m), g.route);
    r.SetNamespace(g.namespace);
    AddAuthentications(r, Authentication(g.authentication));
    AddArguments(r, g.arguments);
  }

  /** The body of `unpack_group`'s loop for member `member` stored under method `m`. */
  method UnpackRoute(m: string, g: RouteGroup, member: Route) returns (r: Route)
    ensures fresh(r) && r.Data() == Unpacked(m, GroupData(g), member.Data())
  {
    r := CreateBaseRoute(m, g);
    AddArguments(r, member.arguments);
    AddAuthentications(r, Authentication(member.authentication));
  }

  /**
   * `unpack_group($g)`: one flattened route per entry of the group's route
   * array, under the same method name and in the same order. An entry added by
   * `add_rest_route` has an integer key, which the `string $method` parameter
   * of `create_base_route_from_group` rejects with a TypeError. Neither the
   * group nor its routes change.
   */
  method UnpackGroup(g: RouteGroup) returns (r: Result<seq<(string, Route)>, Exception>)
    requires g.Valid()
    ensures r.Success? <==> forall i :: 0 <= i < |g.routes| ==> g.routes[i].0.Named?
    ensures r.Failure? ==> r.error == TypeErrorOf(StringMethodMessage)
    ensures r.Success? ==> |r.value| == |g.routes|
    ensures r.Success? ==> forall i :: 0 <= i < |g.routes| ==>
      r.value[i].0 == g.routes[i].0.name && fresh(r.value[i].1) &&
      r.value[i].1.Data() == Unpacked(g.routes[i].0.name, GroupData(g), g.routes[i].1.Data())
  {
    var entries := g.routes;
    var routes: seq<(string, Route)> := [];
    var i := 0;
    while i < |entries|
      invariant 0 <= i <= |entries| && |routes| == i
      invariant forall j :: 0 <= j < i ==> entries[j].0.Named?
      invariant forall j :: 0 <= j < i ==>
        routes[j].0 == entries[j].0.name && fresh(routes[j].1) &&
        routes[j].1.Data() == Unpacked(entries[j].0.name, GroupData(g), entries[j].1.Data())
    {
      var (key, member) := entries[i];
      if key.Index? {
        return Failure(TypeErrorOf(StringMethodMessage));
      }
      var populated := UnpackRoute(key.name, g, member);
      forall j | 0 <= j < i
        ensures routes[j].0 != key.name
      {
        assert entries[j].0 != entries[i].0;
      }
      Php.PutAppend(routes, key.name, populated);
      routes := Php.Put(routes, key.name, populated);
      i := i + 1;
    }
    return Success(routes);
  }
}
