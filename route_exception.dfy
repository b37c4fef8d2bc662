/**
 * `Route_Exception`: the three route errors, with codes 101 to 103 and
 * messages built from the route's upper-cased method, namespace and path.
 */
module RouteExceptions {
  import opened Errors
  import opened Routes
  import Php

  /** `namespace_not_defined($route)`, code 101. */
  function NamespaceNotDefined(route: string): (e: Exception)
    ensures e.kind == RouteException && e.code == 101
    ensures e.message == "Namespace not defined in " + route
  {
    Exception(RouteException, "Namespace not defined in " + route, 101)
  }

  const MissingNamespace := "_MISSING_NAMESPACE_"

  /** The namespace the 102 message shows: the route's own, or the placeholder when it is empty. */
  function ShownNamespace(ns: string): (s: string)
    ensures ns != "" ==> s == ns
    ensures ns == "" ==> s == MissingNamespace
    ensures s != ""
  {
    if ns != "" then ns else MissingNamespace
  }

  /**
   * `callback_not_defined($route)`, code 102: the method in brackets, then the
   * namespace and the path with no separator between them, all upper-cased.
   */
  function CallbackNotDefined(d: RouteData): Exception {
    Exception(RouteException,
      "Callback not defined for [" + Php.Upper(d.verb) + "] " + Php.Upper(ShownNamespace(d.namespace)) + Php.Upper(d.route),
      102)
  }

  /** The placeholder is already upper case. */
  lemma MissingNamespaceUpper()
    ensures Php.Upper(MissingNamespace) == MissingNamespace
  {
    assert MissingNamespace == ['_', 'M', 'I', 'S', 'S', 'I', 'N', 'G', '_', 'N', 'A', 'M', 'E', 'S', 'P', 'A', 'C', 'E', '_'];
    Php.UpperNoLower(MissingNamespace);
  }

  /** The fixed text after the method in the 103 message, spelling as in the source. */
  const UnsupportedMethodText := " is a none supported HTTP Mehtod."

  /** `invalid_http_method($route)`, code 103: the upper-cased method, then the fixed text. */
  function InvalidHttpMethod(d: RouteData): (e: Exception)
    ensures e.kind == RouteException && e.code == 103
    ensures e.message == Php.Upper(d.verb) + UnsupportedMethodText
  {
    Exception(RouteException, Php.Upper(d.verb) + UnsupportedMethodText, 103)
  }

  /**
   * The 102 message of a route: its text after the fixed prefix is the
   * upper-cased `[METHOD] NAMESPACEROUTE`, with the placeholder exactly when
   * the namespace is empty.
   */
  lemma CallbackNotDefinedMessage(d: RouteData)
    ensures CallbackNotDefined(d).kind == RouteException && CallbackNotDefined(d).code == 102
    ensures d.namespace == "" ==> (CallbackNotDefined(d).message ==
      "Callback not defined for [" + Php.Upper(d.verb) + "] " + MissingNamespace + Php.Upper(d.route))
    ensures d.namespace != "" ==> (CallbackNotDefined(d).message ==
      "Callback not defined for [" + Php.Upper(d.verb) + "] " + Php.Upper(d.namespace + d.route))
  {
    if d.namespace == "" {
      MissingNamespaceUpper();
    } else {
      Php.UpperConcat(d.namespace, d.route);
    }
  }

  /**
   * The 103 message, character by character: the route's method with every
   * lower-case ASCII letter raised, then the fixed text. Methods that differ
   * only in case give the same message.
   */
  lemma InvalidHttpMethodMessage(d: RouteData)
    ensures var m := InvalidHttpMethod(d).message;
      && |m| == |d.verb| + |UnsupportedMethodText|
      && (forall i :: 0 <= i < |d.verb| ==> m[i] == Php.UpperChar(d.verb[i]))
      && (forall i :: 0 <= i < |d.verb| ==> !('a' <= m[i] <= 'z'))
      && m[|d.verb|..] == UnsupportedMethodText
    ensures InvalidHttpMethod(d.(verb := Php.Upper(d.verb))) == InvalidHttpMethod(d)
  {
    var m := InvalidHttpMethod(d).message;
    assert m[..|d.verb|] == Php.Upper(d.verb);
    Php.UpperIdempotent(d.verb);
  }
}
