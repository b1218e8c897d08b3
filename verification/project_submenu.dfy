/** The project submenu: the projects of a category laid out in a grid, each linking to
    the page `/<category>/<route>`. */
module ProjectSubmenu {
  import opened Options
  import opened Strings
  import opened Navigation

  /** A project card; its image is left out. */
  datatype Project = Project(id: nat, title: string, route: string)

  const TableauProjects: seq<Project> := [
    Project(1, "Modern HR Dashboard", "modern-hr-dashboard"),
    Project(2, "HR Analytics Dashboard", "hr-analytics-dashboard"),
    Project(3, "Titanic Survivor Story", "titanic-survivor-story")
  ]

  const DotnetProjects: seq<Project> := [
    Project(1, "Dynamo Software", "dynamo-software"),
    Project(2, "CRD Trading System", "crd-trading-system"),
    Project(3, "Portfolio Modeler", "portfolio-modeler"),
    Project(4, "IPO Module", "ipo-module"),
    Project(5, "Asset Mix", "asset-mix"),
    Project(6, "Order Manager", "order-manager"),
    Project(7, "GiftWrap Merge", "gift-wrap-merge"),
    Project(8, "Gift Calcs", "gift-calcs"),
    Project(9, "Hurricane Report", "hurricane-report")
  ]

  const VbProjects: seq<Project> := [
    Project(1, "GiftWrap", "gift-wrap"),
    Project(2, "Database Manager", "database-manager"),
    Project(3, "Corporate Web Site", "corporate-website")
  ]

  /** `projectData[category]`: the list of a known category, nothing otherwise. */
  function ProjectData(category: string): Option<seq<Project>>
  {
    if category == "tableau" then Some(TableauProjects)
    else if category == "dotnet" then Some(DotnetProjects)
    else if category == "vb" then Some(VbProjects)
    else None
  }

  /** `projectData[category] || []` */
  function Projects(category: string): (r: seq<Project>)
    ensures ProjectData(category).None? ==> r == []
    ensures ProjectData(category).Some? ==> r == ProjectData(category).value
  {
    if ProjectData(category).Some? then ProjectData(category).value else []
  }

  /** The known categories and the number of projects in each. */
  lemma KnownCategories(category: string)
    ensures ProjectData(category).Some? <==> category in ["tableau", "dotnet", "vb"]
    ensures |Projects("tableau")| == 3 && |Projects("dotnet")| == 9 && |Projects("vb")| == 3
  {
  }

  /** Within each category no two projects share an id or a route, so the cards have
      distinct keys and lead to distinct pages. */
  lemma ProjectsDistinct(category: string)
    ensures var ps := Projects(category);
      forall i, j :: 0 <= i < j < |ps| ==> ps[i].id != ps[j].id && ps[i].route != ps[j].route
  {
  }

  /** `columnCount`: five for `dotnet` whatever its length, otherwise one per project up
      to five. */
  function ColumnCount(category: string): (r: nat)
    ensures r <= 5
    ensures category == "dotnet" ==> r == 5
    ensures category != "dotnet" ==> r <= |Projects(category)| && (r < 5 ==> r == |Projects(category)|)
  {
    if category == "dotnet" then 5
    else if |Projects(category)| < 5 then |Projects(category)| else 5
  }

  /** The number of grid columns the class names: one to four as counted, anything else
      (an empty category's 0 included) five. */
  function GridColumns(columnCount: int): (r: nat)
    ensures 1 <= r <= 5
    ensures r == columnCount <==> 1 <= columnCount <= 5
  {
    if 1 <= columnCount <= 4 then columnCount else 5
  }

  /** The grid class chosen for a column count. */
  function GridClass(columnCount: int): (r: string)
    ensures r == "grid-cols-" + NatToString(GridColumns(columnCount))
  {
    if columnCount == 1 then "grid-cols-1"
    else if columnCount == 2 then "grid-cols-2"
    else if columnCount == 3 then "grid-cols-3"
    else if columnCount == 4 then "grid-cols-4"
    else "grid-cols-5"
  }

  /** The grid each category gets: three columns for the three Tableau and the three VB
      projects, five for the nine .NET ones, and five for an unknown category's empty
      grid. */
  lemma CategoryGrids(unknown: string)
    requires ProjectData(unknown).None?
    ensures GridColumns(ColumnCount("tableau")) == 3 && GridColumns(ColumnCount("vb")) == 3
    ensures GridColumns(ColumnCount("dotnet")) == 5
    ensures ColumnCount(unknown) == 0 && GridColumns(ColumnCount(unknown)) == 5
  {
  }

  /** The page of a project: `/<category>/<route>`. */
  function ProjectPath(category: string, route: string): string
  {
    "/" + category + "/" + route
  }

  /** The page of a project starts with its category's prefix, and the route follows it. */
  lemma ProjectPathParts(category: string, route: string)
    ensures var r := ProjectPath(category, route);
      StartsWith(r, "/" + category + "/") && r[|category| + 2..] == route
  {
    var r := ProjectPath(category, route);
    assert r[..|category| + 2] == "/" + category + "/";
  }

  /** Two routes of one category lead to two different pages. */
  lemma ProjectPathInjective(category: string, a: string, b: string)
    requires ProjectPath(category, a) == ProjectPath(category, b)
    ensures a == b
  {
    ProjectPathParts(category, a);
    ProjectPathParts(category, b);
  }

  /** `handleProjectClick`: navigate to the project's page, then close the menu. */
  function HandleProjectClick(category: string, project: Project): (r: seq<NavEffect>)
    ensures r == NavigateAndClose(ProjectPath(category, project.route))
  {
    [Navigate("/" + category + "/" + project.route), Close]
  }
}
