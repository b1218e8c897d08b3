/** Every link the navigation offers leads to a path in the route table. */
module SiteRoutes {
  import opened Routes
  import opened ProjectSubmenu
  import DesktopNav
  import MobileNav

  /** The pages the education submenu links to, in the order it lists them (the desktop
      and the mobile submenu offer the same five). */
  const EducationTargets: seq<string> := [
    "/education/formal-degree",
    "/education/certificates",
    "/education/pluralsight",
    "/education/oracle-university",
    "/education/other"
  ]

  /** The page the resume submenu's view button opens. */
  const ResumeTarget: string := "/resume"

  /** The links outside the project grids lead to pages the router knows: the Home
      entry of both menus, every education link and the resume link. */
  lemma MenuTargetsRegistered()
    ensures Registered(DesktopNav.MenuItems[0].path) && Registered(MobileNav.MenuItems[0].path)
    ensures forall t :: t in EducationTargets ==> Registered(t)
    ensures Registered(ResumeTarget)
  {
    assert RoutePaths[0] == "/";
    assert EducationTargets == RoutePaths[16..21];
    assert RoutePaths[21] == ResumeTarget;
  }

  /** Every project card links to a page the router knows. */
  lemma ProjectPathsRegistered(category: string, k: nat)
    requires k < |Projects(category)|
    ensures Registered(ProjectPath(category, Projects(category)[k].route))
  {
    if category == "tableau" {
      if k == 0 {
        TableauPath0();
      } else if k == 1 {
        TableauPath1();
      } else {
        TableauPath2();
      }
    } else if category == "dotnet" {
      if k == 0 {
        DotnetPath0();
      } else if k == 1 {
        DotnetPath1();
      } else if k == 2 {
        DotnetPath2();
      } else if k == 3 {
        DotnetPath3();
      } else if k == 4 {
        DotnetPath4();
      } else if k == 5 {
        DotnetPath5();
      } else if k == 6 {
        DotnetPath6();
      } else if k == 7 {
        DotnetPath7();
      } else {
        DotnetPath8();
      }
    } else {
      if k == 0 {
        VbPath0();
      } else if k == 1 {
        VbPath1();
      } else {
        VbPath2();
      }
    }
  }

  /** The prefix of the tableau pages. */
  lemma TableauPrefix()
    ensures "/" + "tableau" + "/" == "/tableau/"
  {
  }

  lemma TableauPath0()
    ensures ProjectPath("tableau", TableauProjects[0].route) == RoutePaths[1]
  {
    TableauPrefix();
  }

  lemma TableauPath1()
    ensures ProjectPath("tableau", TableauProjects[1].route) == RoutePaths[2]
  {
    TableauPrefix();
  }

  lemma TableauPath2()
    ensures ProjectPath("tableau", TableauProjects[2].route) == RoutePaths[3]
  {
    TableauPrefix();
  }

  /** The prefix of the dotnet pages. */
  lemma DotnetPrefix()
    ensures "/" + "dotnet" + "/" == "/dotnet/"
  {
  }

  lemma DotnetPath0()
    ensures ProjectPath("dotnet", DotnetProjects[0].route) == RoutePaths[4]
  {
    DotnetPrefix();
  }

  lemma DotnetPath1()
    ensures ProjectPath("dotnet", DotnetProjects[1].route) == RoutePaths[5]
  {
    DotnetPrefix();
  }

  lemma DotnetPath2()
    ensures ProjectPath("dotnet", DotnetProjects[2].route) == RoutePaths[6]
  {
    DotnetPrefix();
  }

  lemma DotnetPath3()
    ensures ProjectPath("dotnet", DotnetProjects[3].route) == RoutePaths[7]
  {
    DotnetPrefix();
  }

  lemma DotnetPath4()
    ensures ProjectPath("dotnet", DotnetProjects[4].route) == RoutePaths[8]
  {
    DotnetPrefix();
  }

  lemma DotnetPath5()
    ensures ProjectPath("dotnet", DotnetProjects[5].route) == RoutePaths[9]
  {
    DotnetPrefix();
  }

  lemma DotnetPath6()
    ensures ProjectPath("dotnet", DotnetProjects[6].route) == RoutePaths[10]
  {
    DotnetPrefix();
  }

  lemma DotnetPath7()
    ensures ProjectPath("dotnet", DotnetProjects[7].route) == RoutePaths[11]
  {
    DotnetPrefix();
  }

  lemma DotnetPath8()
    ensures ProjectPath("dotnet", DotnetProjects[8].route) == RoutePaths[13]
  {
    DotnetPrefix();
  }

  /** The prefix of the vb pages. */
  lemma VbPrefix()
    ensures "/" + "vb" + "/" == "/vb/"
  {
  }

  lemma VbPath0()
    ensures ProjectPath("vb", VbProjects[0].route) == RoutePaths[14]
  {
    VbPrefix();
  }

  lemma VbPath1()
    ensures ProjectPath("vb", VbProjects[1].route) == RoutePaths[15]
  {
    VbPrefix();
  }

  lemma VbPath2()
    ensures ProjectPath("vb", VbProjects[2].route) == RoutePaths[12]
  {
    VbPrefix();
  }
}
