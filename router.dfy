/** The route table: every module path found by the build's glob is offered
    to the route strategies in order, the first route record a strategy
    returns is kept, paths no strategy accepts are dropped, and the kept
    chart routes sit between the home route and the catch-all 404 route. */
module Router {
  import opened Wrappers
  import opened RouterStrategies

  /** A route strategy: a module path and its loader to a route, or null. */
  type Strategy = (string, Component) -> Option<RouteRecord>

  /** The strategies in the order they are tried. */
  const ChartRouteStrategies: seq<Strategy> := [SingleFileViewStrategy, DirectoryIndexStrategy]

  const HOME_ROUTE := RouteRecord("/", "home", HomeView)
  const NOT_FOUND_ROUTE := RouteRecord("/:pathMatch(.*)*", "NotFound", NotFoundComponent)

  predicate StartsWith(s: string, prefix: string) {
    |prefix| <= |s| && s[..|prefix|] == prefix
  }

  /** The route of the first strategy that returns one, or null when none does. */
  function FirstMatch(strategies: seq<Strategy>, path: string, loader: Component): (r: Option<RouteRecord>)
    ensures r.None? <==> forall k :: 0 <= k < |strategies| ==> strategies[k](path, loader).None?
  {
    if strategies == [] then None
    else
      var routeConfig := strategies[0](path, loader);
      if routeConfig.Some? then routeConfig
      else
        var r := FirstMatch(strategies[1..], path, loader);
        assert forall k :: 1 <= k < |strategies| ==> strategies[k] == strategies[1..][k - 1];
        r
  }

  /** The route generated for one module path; the module is its own loader. */
  function RouteFor(path: string): Option<RouteRecord> {
    FirstMatch(ChartRouteStrategies, path, ChartModule(path))
  }

  /** Object.entries(chartModules).map(...).filter(route !== null) */
  function ChartRoutes(modules: seq<string>): (routes: seq<RouteRecord>)
    ensures |routes| <= |modules|
  {
    if modules == [] then []
    else
      var rest := ChartRoutes(modules[..|modules| - 1]);
      match RouteFor(modules[|modules| - 1])
      case Some(route) => rest + [route]
      case None => rest
  }

  /** Reference definition: the positions of the modules some strategy accepts. */
  function AcceptedIndices(modules: seq<string>): seq<nat> {
    if modules == [] then []
    else
      AcceptedIndices(modules[..|modules| - 1])
      + (if RouteFor(modules[|modules| - 1]).Some? then [|modules| - 1] else [])
  }

  /** The complete route table. */
  function Routes(modules: seq<string>): (routes: seq<RouteRecord>)
    ensures |routes| == |ChartRoutes(modules)| + 2
    ensures routes[0] == HOME_ROUTE && routes[|routes| - 1] == NOT_FOUND_ROUTE
    ensures routes[1..|routes| - 1] == ChartRoutes(modules)
  {
    [HOME_ROUTE] + ChartRoutes(modules) + [NOT_FOUND_ROUTE]
  }

  // ----- lemmas -----

  /** FirstMatch returns the result of the first strategy that accepts. */
  lemma {:induction false} FirstMatchIsFirst(strategies: seq<Strategy>, path: string, loader: Component)
    ensures FirstMatch(strategies, path, loader).Some? ==>
      exists k :: 0 <= k < |strategies|
        && strategies[k](path, loader) == FirstMatch(strategies, path, loader)
        && forall j :: 0 <= j < k ==> strategies[j](path, loader).None?
  {
    if strategies != [] && strategies[0](path, loader).None? {
      FirstMatchIsFirst(strategies[1..], path, loader);
      if FirstMatch(strategies, path, loader).Some? {
        var k :| 0 <= k < |strategies| - 1
          && strategies[1..][k](path, loader) == FirstMatch(strategies[1..], path, loader)
          && forall j :: 0 <= j < k ==> strategies[1..][j](path, loader).None?;
        assert strategies[k + 1] == strategies[1..][k];
        assert forall j :: 1 <= j < k + 1 ==> strategies[j] == strategies[1..][j - 1];
      }
    }
  }

  /** A module gets the single-file route when that strategy accepts it, the
      directory route otherwise; as no path is accepted by both, the order of
      the two strategies does not change any route. */
  lemma RouteForSpec(path: string)
    ensures RouteFor(path) == (if SingleFileViewStrategy(path, ChartModule(path)).Some?
                               then SingleFileViewStrategy(path, ChartModule(path))
                               else DirectoryIndexStrategy(path, ChartModule(path)))
    ensures RouteFor(path) == FirstMatch([DirectoryIndexStrategy, SingleFileViewStrategy], path, ChartModule(path))
  {
    var loader := ChartModule(path);
    StrategiesDisjoint(path, loader);
    var single, directory := SingleFileViewStrategy(path, loader), DirectoryIndexStrategy(path, loader);
    var s := ChartRouteStrategies;
    assert s[0] == SingleFileViewStrategy && s[1..][0] == DirectoryIndexStrategy && s[1..][1..] == [];
    assert FirstMatch(s[1..][1..], path, loader) == None;
    assert FirstMatch(s[1..], path, loader) == directory;
    assert FirstMatch(s, path, loader) == if single.Some? then single else directory;
    var t: seq<Strategy> := [DirectoryIndexStrategy, SingleFileViewStrategy];
    assert t[0] == DirectoryIndexStrategy && t[1..][0] == SingleFileViewStrategy && t[1..][1..] == [];
    assert FirstMatch(t[1..][1..], path, loader) == None;
    assert FirstMatch(t[1..], path, loader) == single;
    assert FirstMatch(t, path, loader) == if directory.Some? then directory else single;
  }

  /** Every generated route is a chart route: its path starts with
      "/charts/" and it loads the module it was generated from. */
  lemma ChartRouteShape(path: string)
    ensures RouteFor(path).Some? ==>
      && StartsWith(RouteFor(path).value.path, CHARTS_ROUTE)
      && RouteFor(path).value.component == ChartModule(path)
  {
    RouteForSpec(path);
    var loader := ChartModule(path);
    var m1 := (i: nat) => SingleFileMatchAt(path, i);
    var m2 := (i: nat) => DirectoryIndexMatchAt(path, i);
    var r1 := Leftmost(m1, 0, |path|);
    var r2 := Leftmost(m2, 0, |path|);
  }

  /** One more module path appends its index and its route when accepted. */
  lemma {:induction false} ChartRoutesSnoc(modules: seq<string>)
    requires modules != []
    ensures var init, m := modules[..|modules| - 1], modules[|modules| - 1];
      && AcceptedIndices(modules)
         == AcceptedIndices(init) + (if RouteFor(m).Some? then [|init|] else [])
      && ChartRoutes(modules)
         == ChartRoutes(init) + (if RouteFor(m).Some? then [RouteFor(m).value] else [])
  {
  }

  /** As many indices as routes, each a position of the list, increasing. */
  lemma {:induction false} AcceptedIndicesBounds(modules: seq<string>)
    ensures |AcceptedIndices(modules)| == |ChartRoutes(modules)|
    ensures forall k :: 0 <= k < |AcceptedIndices(modules)| ==> AcceptedIndices(modules)[k] < |modules|
    ensures forall k, l :: 0 <= k < l < |AcceptedIndices(modules)| ==>
      AcceptedIndices(modules)[k] < AcceptedIndices(modules)[l]
  {
    if modules != [] {
      var init := modules[..|modules| - 1];
      AcceptedIndicesBounds(init);
      ChartRoutesSnoc(modules);
    }
  }

  /** The k-th route is the route of the module at the k-th index. */
  lemma {:induction false} AcceptedRoutes(modules: seq<string>)
    ensures |AcceptedIndices(modules)| == |ChartRoutes(modules)|
    ensures forall k :: 0 <= k < |AcceptedIndices(modules)| ==>
      AcceptedIndices(modules)[k] < |modules|
      && RouteFor(modules[AcceptedIndices(modules)[k]]) == Some(ChartRoutes(modules)[k])
  {
    AcceptedIndicesBounds(modules);
    if modules != [] {
      var init := modules[..|modules| - 1];
      AcceptedRoutes(init);
      ChartRoutesSnoc(modules);
      var a0, c0 := AcceptedIndices(init), ChartRoutes(init);
      var a, c := AcceptedIndices(modules), ChartRoutes(modules);
      forall k | 0 <= k < |a|
        ensures RouteFor(modules[a[k]]) == Some(c[k])
      {
        if k < |a0| {
          assert a[k] == a0[k] && c[k] == c0[k] && modules[a0[k]] == init[a0[k]];
        }
      }
    }
  }

  /** An index is listed exactly when some strategy accepts its module. */
  lemma {:induction false} AcceptedMembership(modules: seq<string>)
    ensures forall i :: 0 <= i < |modules| ==>
      (RouteFor(modules[i]).Some? <==> i in AcceptedIndices(modules))
  {
    if modules != [] {
      var init := modules[..|modules| - 1];
      AcceptedMembership(init);
      AcceptedIndicesBounds(init);
      ChartRoutesSnoc(modules);
      var a0 := AcceptedIndices(init);
      forall i | 0 <= i < |modules|
        ensures RouteFor(modules[i]).Some? <==> i in AcceptedIndices(modules)
      {
        if i < |init| {
          assert modules[i] == init[i];
          assert i != |init|;
        } else {
          assert |init| !in a0;
        }
      }
    }
  }

  /** The chart routes are the routes of the accepted modules, in the order
      of the modules. */
  lemma ChartRoutesByIndex(modules: seq<string>)
    ensures |AcceptedIndices(modules)| == |ChartRoutes(modules)|
    ensures forall k :: 0 <= k < |AcceptedIndices(modules)| ==>
      AcceptedIndices(modules)[k] < |modules|
      && RouteFor(modules[AcceptedIndices(modules)[k]]) == Some(ChartRoutes(modules)[k])
    ensures forall k, l :: 0 <= k < l < |AcceptedIndices(modules)| ==>
      AcceptedIndices(modules)[k] < AcceptedIndices(modules)[l]
    ensures forall i :: 0 <= i < |modules| ==>
      (RouteFor(modules[i]).Some? <==> i in AcceptedIndices(modules))
  {
    AcceptedIndicesBounds(modules);
    AcceptedRoutes(modules);
    AcceptedMembership(modules);
  }

  /** Every route of the table but the first and the last is a chart route. */
  lemma RoutesShape(modules: seq<string>)
    ensures forall k :: 1 <= k < |Routes(modules)| - 1 ==>
      StartsWith(Routes(modules)[k].path, CHARTS_ROUTE)
  {
    ChartRoutesByIndex(modules);
    var chart := ChartRoutes(modules);
    var idx := AcceptedIndices(modules);
    forall k | 0 <= k < |chart|
      ensures StartsWith(chart[k].path, CHARTS_ROUTE)
    {
      ChartRouteShape(modules[idx[k]]);
    }
    assert forall k :: 1 <= k < |Routes(modules)| - 1 ==> Routes(modules)[k] == chart[k - 1];
  }
}
