/** The desktop navigation bar: a button per top-level entry; the expandable ones open a
    dropdown whose open state is kept per entry caption. */
module DesktopNav {
  import opened Navigation
  import ProjectSubmenu

  const MenuItems: seq<MenuItem> := [
    MenuItem("Home", "/", false, ""),
    MenuItem("Tableau", "/tableau", true, "tableau"),
    MenuItem(".NET", "/dotnet", true, "dotnet"),
    MenuItem("VB/ASP", "/vb", true, "vb"),
    MenuItem("Education", "/education", true, "education"),
    MenuItem("Resume", "/resume", true, "")
  ]

  /** `openMenus[key] || false`: an absent key reads as closed. */
  function IsOpen(openMenus: map<string, bool>, key: string): bool
  {
    key in openMenus && openMenus[key]
  }

  /** The dropdown's content for an entry: nothing for a plain link, the education or
      resume submenu for those two entries, and the project submenu of the entry's
      category for the others. */
  function Dropdown(item: MenuItem): (r: seq<Submenu>)
    ensures |r| == 1 <==> item.expandable
    ensures r == [] <==> !item.expandable
    ensures r == [EducationMenu] <==> item.expandable && item.caption == "Education"
    ensures r == [ResumeMenu] <==> item.expandable && item.caption == "Resume"
    ensures forall c :: r == [ProjectMenu(c)] <==>
      (item.expandable && item.caption != "Education" && item.caption != "Resume" && c == item.category)
  {
    if !item.expandable then []
    else if item.caption == "Education" then [EducationMenu]
    else if item.caption == "Resume" then [ResumeMenu]
    else [ProjectMenu(item.category)]
  }

  /** The entries' dropdowns: Home is a plain link; Tableau, .NET and VB/ASP open the
      project grid of a category that has projects; Education and Resume open their own
      submenus. */
  lemma MenuDispatch()
    ensures Dropdown(MenuItems[0]) == []
    ensures forall k :: 1 <= k <= 3 ==>
      Dropdown(MenuItems[k]) == [ProjectMenu(MenuItems[k].category)]
      && ProjectSubmenu.ProjectData(MenuItems[k].category).Some?
    ensures Dropdown(MenuItems[4]) == [EducationMenu]
    ensures Dropdown(MenuItems[5]) == [ResumeMenu]
  {
    ProjectSubmenu.KnownCategories("tableau");
    ProjectSubmenu.KnownCategories("dotnet");
    ProjectSubmenu.KnownCategories("vb");
  }

  /** Setting one entry's open state changes that entry only. */
  lemma ToggleSetsOnlyKey(openMenus: map<string, bool>, menuKey: string, open: bool)
    ensures IsOpen(openMenus[menuKey := open], menuKey) == open
    ensures forall k :: k != menuKey ==> IsOpen(openMenus[menuKey := open], k) == IsOpen(openMenus, k)
  {
  }

  /** Closing an entry twice is closing it once. */
  lemma CloseIdempotent(openMenus: map<string, bool>, menuKey: string)
    ensures openMenus[menuKey := false][menuKey := false] == openMenus[menuKey := false]
    ensures !IsOpen(openMenus[menuKey := false], menuKey)
  {
  }

  /** The bar's state: which dropdowns are open, and the paths navigated to. */
  class DesktopNav {
    var openMenus: map<string, bool>
    var visited: seq<string>
    const currentPath: string

    constructor (currentPath: string)
      ensures openMenus == map[] && visited == [] && this.currentPath == currentPath
    {
      openMenus := map[];
      visited := [];
      this.currentPath := currentPath;
    }

    /** `handleMenuToggle`: the dropdown's open state as the menu reports it. */
    method HandleMenuToggle(menuKey: string, open: bool)
      modifies this
      ensures openMenus == old(openMenus)[menuKey := open]
      ensures visited == old(visited)
    {
      openMenus := openMenus[menuKey := open];
    }

    /** `handleCloseMenu`: the `onClose` of a submenu. */
    method HandleCloseMenu(menuKey: string)
      modifies this
      ensures openMenus == old(openMenus)[menuKey := false]
      ensures visited == old(visited)
    {
      openMenus := openMenus[menuKey := false];
    }

    /** A plain entry's button navigates to its path. */
    method FollowLink(item: MenuItem)
      requires !item.expandable
      modifies this
      ensures visited == old(visited) + [item.path]
      ensures openMenus == old(openMenus)
    {
      visited := visited + [item.path];
    }

    /** A project card in an entry's dropdown: the submenu navigates to the project's page
        and then calls `onClose`, which closes that entry's dropdown. */
    method ChooseProject(item: MenuItem, project: ProjectSubmenu.Project)
      requires Dropdown(item) == [ProjectMenu(item.category)]
      modifies this
      ensures visited == old(visited) + [ProjectSubmenu.ProjectPath(item.category, project.route)]
      ensures openMenus == old(openMenus)[item.caption := false]
    {
      var effects := ProjectSubmenu.HandleProjectClick(item.category, project);
      visited := visited + [effects[0].path];
      HandleCloseMenu(item.caption);
    }
  }
}
