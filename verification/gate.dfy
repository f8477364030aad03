/** The request gate and the startup report (deprecatedapi/middleware.go,
    getDisabledPathAndMethods, disableDeprecatedApiHandler and
    getDisabledEndpoints).

    The Ant-style path matcher belongs to a library outside this model; it
    is a parameter, and every property here holds whatever matcher is
    supplied. Go iterates over a map in no fixed order, so the lookup is a
    method whose choice among the registry keys is left open, and its
    contract describes every possible run. */
module Gate {
  import opened Wrappers
  import opened Text
  import opened Sorting
  import opened Declarations
  import opened RouteNormalizer
  import opened DeprecatedErrors

  /** AntPathMatcher.Match(pattern, path). */
  type AntMatcher = (string, string) -> bool

  /** The registry built from the declarations together with the matcher. */
  datatype DisabledUrlPatterns = DisabledUrlPatterns(urlsMap: map<string, seq<string>>, antPathMatch: AntMatcher)

  /** fiber.StatusNotFound. */
  const StatusNotFound: int := 404

  /** The declaration under `key` disables `requestMethod` on `uri`: the matcher
      accepts the URI, and the method list names the method exactly (case
      included) or is the wildcard. */
  predicate Qualifies(p: DisabledUrlPatterns, key: string, uri: string, requestMethod: string) {
    && key in p.urlsMap
    && p.antPathMatch(key, uri)
    && (requestMethod in p.urlsMap[key] || AnyMethod in p.urlsMap[key])
  }

  /** Some declaration disables `requestMethod` on `uri`. */
  predicate Disabled(p: DisabledUrlPatterns, uri: string, requestMethod: string) {
    exists key :: key in p.urlsMap && Qualifies(p, key, uri, requestMethod)
  }

  // ------------------------------------------------------------------
  // getDisabledPathAndMethods
  // ------------------------------------------------------------------

  /** The declarations are visited in an order left open, and the first
      qualifying one is returned with its method list; None stands for the
      `("", nil)` result. */
  method GetDisabledPathAndMethods(p: DisabledUrlPatterns, uri: string, requestMethod: string)
    returns (r: Option<(string, seq<string>)>)
    ensures r.Some? ==> Qualifies(p, r.value.0, uri, requestMethod) && r.value.1 == p.urlsMap[r.value.0]
    ensures r.None? <==> !Disabled(p, uri, requestMethod)
    ensures forall key :: Qualifies(p, key, uri, requestMethod) && (forall k :: Qualifies(p, k, uri, requestMethod) ==> k == key)
              ==> r == Some((key, p.urlsMap[key]))
  {
    var remaining := p.urlsMap.Keys;
    while remaining != {}
      invariant remaining <= p.urlsMap.Keys
      invariant forall k :: k in p.urlsMap && k !in remaining ==> !Qualifies(p, k, uri, requestMethod)
      decreases |remaining|
    {
      var antPath :| antPath in remaining;
      var methods := p.urlsMap[antPath];
      if p.antPathMatch(antPath, uri) {
        var i := 0;
        while i < |methods|
          invariant 0 <= i <= |methods|
          invariant forall j :: 0 <= j < i ==> methods[j] != requestMethod && methods[j] != AnyMethod
        {
          if methods[i] == requestMethod || methods[i] == AnyMethod {
            assert Qualifies(p, antPath, uri, requestMethod);
            return Some((antPath, methods));
          }
          i := i + 1;
        }
      }
      remaining := remaining - {antPath};
    }
    return None;
  }

  /** Method names are compared exactly: on a registry built by
      ConvertPatterns, whose names are upper-case, a request method with a
      lower-case letter is only ever caught by a wildcard entry. */
  lemma CaseSensitiveMethods(patterns: seq<ConfigValue>, matcher: AntMatcher, key: string, uri: string, requestMethod: string)
    requires ConvertPatterns(patterns).Success?
    requires exists k :: 0 <= k < |requestMethod| && IsLowerAscii(requestMethod[k])
    requires Qualifies(DisabledUrlPatterns(ConvertPatterns(patterns).value, matcher), key, uri, requestMethod)
    ensures AnyMethod in ConvertPatterns(patterns).value[key]
  {
    ConvertPatternsWellFormed(patterns);
  }

  // A registry with one declaration, `/deprecated/v1/** [GET POST]`:
  // for any matcher that accepts the URI under that pattern, GET is
  // disabled and PUT is not; a URI the matcher rejects is never disabled.
  lemma LookupExample(matcher: AntMatcher, uri: string, other: string)
    requires matcher("/deprecated/v1/**", uri) && !matcher("/deprecated/v1/**", other)
    ensures var p := DisabledUrlPatterns(map["/deprecated/v1/**" := ["GET", "POST"]], matcher);
            Disabled(p, uri, "GET") && !Disabled(p, uri, "PUT") && !Disabled(p, other, "GET")
  {
    var p := DisabledUrlPatterns(map["/deprecated/v1/**" := ["GET", "POST"]], matcher);
    assert Qualifies(p, "/deprecated/v1/**", uri, "GET");
  }

  // ------------------------------------------------------------------
  // disableDeprecatedApiHandler
  // ------------------------------------------------------------------

  /** What the middleware does with a request: hand it on, or answer with a
      status and an error response. */
  datatype Verdict = Next | Decline(status: int, response: ErrorResponse)

  /** A request is declined with 404 exactly when some declaration disables
      its method on its URI, and the response names one such declaration;
      otherwise it is handed on. */
  method DisableDeprecatedApiHandler(p: DisabledUrlPatterns, requestUri: string, requestMethod: string)
    returns (v: Verdict)
    ensures v.Decline? <==> Disabled(p, requestUri, requestMethod)
    ensures v.Decline? ==> v.status == StatusNotFound && v.response.status == StatusNotFound
    ensures v.Decline? ==>
              exists key :: && Qualifies(p, key, requestUri, requestMethod)
                             && v.response == CreateErrorResponse(requestMethod, requestUri, p.urlsMap[key], key, StatusNotFound)
  {
    var found := GetDisabledPathAndMethods(p, requestUri, requestMethod);
    if found.Some? {
      var (antPath, methods) := found.value;
      var status := StatusNotFound;
      var response := CreateErrorResponse(requestMethod, requestUri, methods, antPath, status);
      return Decline(status, response);
    }
    return Next;
  }

  // ------------------------------------------------------------------
  // getDisabledEndpoints
  // ------------------------------------------------------------------

  /** A registered route: its path template and its HTTP method. */
  datatype Route = Route(path: string, httpMethod: string)

  /** The route is disabled: the lookup on its normalised path and its
      method finds a declaration. */
  predicate RouteDisabled(p: DisabledUrlPatterns, route: Route) {
    Disabled(p, Normalize(route.path), route.httpMethod)
  }

  /** The paths, as registered, of the disabled routes. */
  function DisabledPaths(p: DisabledUrlPatterns, routes: seq<Route>): set<string> {
    set route | route in routes && RouteDisabled(p, route) :: route.path
  }

  /** Reference definition: the methods of the disabled routes registered
      under `path`, in the order the routes are listed. */
  function MethodsFor(p: DisabledUrlPatterns, routes: seq<Route>, path: string): seq<string>
    decreases |routes|
  {
    if routes == [] then []
    else (if routes[0].path == path && RouteDisabled(p, routes[0]) then [routes[0].httpMethod] else [])
         + MethodsFor(p, routes[1..], path)
  }

  /** The map the loop of getDisabledEndpoints fills, route after route:
      a disabled route's method is appended to its path's list. */
  function CollectDisabled(p: DisabledUrlPatterns, routes: seq<Route>): map<string, seq<string>>
    decreases |routes|
  {
    if routes == [] then map[]
    else
      var n := |routes| - 1;
      var collected := CollectDisabled(p, routes[..n]);
      var route := routes[n];
      if RouteDisabled(p, route) then
        collected[route.path := if route.path in collected then collected[route.path] + [route.httpMethod] else [route.httpMethod]]
      else
        collected
  }

  /** One line of the report. */
  function ReportLine(path: string, methods: seq<string>): string {
    path + " [" + Join(methods, ",") + "]"
  }

  lemma {:induction false} MethodsForSnoc(p: DisabledUrlPatterns, routes: seq<Route>, route: Route, path: string)
    ensures MethodsFor(p, routes + [route], path)
            == MethodsFor(p, routes, path) + (if route.path == path && RouteDisabled(p, route) then [route.httpMethod] else [])
    decreases |routes|
  {
    if routes == [] {
      assert routes + [route] == [route];
      assert [route][1..] == [];
    } else {
      assert (routes + [route])[1..] == routes[1..] + [route];
      MethodsForSnoc(p, routes[1..], route, path);
    }
  }

  /** A method is listed for `path` exactly when a disabled route with that
      path and method is registered. */
  lemma {:induction false} MethodsForMembers(p: DisabledUrlPatterns, routes: seq<Route>, path: string, m: string)
    ensures m in MethodsFor(p, routes, path) <==> exists route :: route in routes && route == Route(path, m) && RouteDisabled(p, route)
    decreases |routes|
  {
    if routes != [] {
      MethodsForMembers(p, routes[1..], path, m);
      assert forall route :: route in routes <==> route == routes[0] || route in routes[1..];
    }
  }

  /** The fold of getDisabledEndpoints agrees with the reference
      definition: its keys are the disabled paths, and each holds that
      path's methods in route order. */
  lemma {:induction false} CollectDisabledIsMethodsFor(p: DisabledUrlPatterns, routes: seq<Route>)
    ensures CollectDisabled(p, routes).Keys == DisabledPaths(p, routes)
    ensures forall path :: path in CollectDisabled(p, routes) ==> CollectDisabled(p, routes)[path] == MethodsFor(p, routes, path)
    decreases |routes|
  {
    if routes != [] {
      var n := |routes| - 1;
      var prefix := routes[..n];
      var route := routes[n];
      assert routes == prefix + [route];
      CollectDisabledIsMethodsFor(p, prefix);
      var collected := CollectDisabled(p, prefix);
      forall path
        ensures MethodsFor(p, routes, path)
                == MethodsFor(p, prefix, path) + (if route.path == path && RouteDisabled(p, route) then [route.httpMethod] else [])
      {
        MethodsForSnoc(p, prefix, route, path);
      }
      assert DisabledPaths(p, routes) == DisabledPaths(p, prefix) + (if RouteDisabled(p, route) then {route.path} else {});
      forall path | path in collected
        ensures MethodsFor(p, prefix, path) != []
      {
        var r :| r in prefix && RouteDisabled(p, r) && r.path == path;
        MethodsForMembers(p, prefix, path, r.httpMethod);
      }
      forall path | path !in collected
        ensures MethodsFor(p, prefix, path) == []
      {
        if MethodsFor(p, prefix, path) != [] {
          MethodsForMembers(p, prefix, path, MethodsFor(p, prefix, path)[0]);
        }
      }
    }
  }

  /** The sorted keys of the collected map are the sorted disabled paths,
      and each maps to that path's methods. */
  lemma SortedReportKeys(p: DisabledUrlPatterns, routes: seq<Route>)
    ensures SortedSet(CollectDisabled(p, routes).Keys) == SortedSet(DisabledPaths(p, routes))
    ensures var keys := SortedSet(DisabledPaths(p, routes));
            forall i :: 0 <= i < |keys| ==>
              keys[i] in CollectDisabled(p, routes) && CollectDisabled(p, routes)[keys[i]] == MethodsFor(p, routes, keys[i])
  {
    CollectDisabledIsMethodsFor(p, routes);
    var keys := SortedSet(DisabledPaths(p, routes));
    forall i | 0 <= i < |keys|
      ensures keys[i] in CollectDisabled(p, routes)
    {
      assert keys[i] in keys;
    }
  }

  /** getDisabledEndpoints: one line per disabled path, in ascending order
      of the path as registered (not normalised), each listing that path's
      disabled methods in the order the routes are registered. */
  function DisabledEndpoints(p: DisabledUrlPatterns, routes: seq<Route>): (lines: seq<string>)
    ensures |lines| == |DisabledPaths(p, routes)|
    ensures forall i :: 0 <= i < |lines| ==>
              lines[i] == ReportLine(SortedSet(DisabledPaths(p, routes))[i], MethodsFor(p, routes, SortedSet(DisabledPaths(p, routes))[i]))
  {
    var disabledRoutes := CollectDisabled(p, routes);
    SortedReportKeys(p, routes);
    var keys := SortedSet(disabledRoutes.Keys);
    seq(|keys|, i requires 0 <= i < |keys| => ReportLine(keys[i], disabledRoutes[keys[i]]))
  }

  /** Every path of the report is a disabled route's path, listed once and
      in ascending order, and every listed method belongs to a disabled
      route with that path. */
  lemma ReportSound(p: DisabledUrlPatterns, routes: seq<Route>, i: nat, m: string)
    requires i < |DisabledPaths(p, routes)|
    requires m in MethodsFor(p, routes, SortedSet(DisabledPaths(p, routes))[i])
    ensures Route(SortedSet(DisabledPaths(p, routes))[i], m) in routes
    ensures RouteDisabled(p, Route(SortedSet(DisabledPaths(p, routes))[i], m))
  {
    MethodsForMembers(p, routes, SortedSet(DisabledPaths(p, routes))[i], m);
  }

  /** Every disabled route shows up: its path has a line, and its method is
      listed on it. */
  lemma ReportComplete(p: DisabledUrlPatterns, routes: seq<Route>, route: Route)
    requires route in routes && RouteDisabled(p, route)
    ensures exists i :: 0 <= i < |DisabledEndpoints(p, routes)|
              && SortedSet(DisabledPaths(p, routes))[i] == route.path
              && route.httpMethod in MethodsFor(p, routes, route.path)
  {
    var paths := SortedSet(DisabledPaths(p, routes));
    assert route.path in DisabledPaths(p, routes);
    var i :| 0 <= i < |paths| && paths[i] == route.path;
    MethodsForMembers(p, routes, route.path, route.httpMethod);
  }
}
