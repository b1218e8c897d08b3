/** The application's route table: the paths the router knows, each rendering one page. */
module Routes {

  /** The registered paths, in the order the router lists them. */
  const RoutePaths: seq<string> := [
    "/",
    "/tableau/modern-hr-dashboard",
    "/tableau/hr-analytics-dashboard",
    "/tableau/titanic-survivor-story",
    "/dotnet/dynamo-software",
    "/dotnet/crd-trading-system",
    "/dotnet/portfolio-modeler",
    "/dotnet/ipo-module",
    "/dotnet/asset-mix",
    "/dotnet/order-manager",
    "/dotnet/gift-wrap-merge",
    "/dotnet/gift-calcs",
    "/vb/corporate-website",
    "/dotnet/hurricane-report",
    "/vb/gift-wrap",
    "/vb/database-manager",
    "/education/formal-degree",
    "/education/certificates",
    "/education/pluralsight",
    "/education/oracle-university",
    "/education/other",
    "/resume"
  ]

  /** A path the router renders a page for. */
  predicate Registered(path: string)
  {
    path in RoutePaths
  }

  /** The table has 22 paths and no path is registered twice, so each path selects
      exactly one page. */
  lemma RoutePathsDistinct()
    ensures |RoutePaths| == 22
    ensures forall i, j :: 0 <= i < j < |RoutePaths| ==> RoutePaths[i] != RoutePaths[j]
  {
  }
}
