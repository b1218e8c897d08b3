/** The mobile navigation drawer: a list of entries, each a collapsible section whose open
    state is kept per entry caption, with the current section highlighted. */
module MobileNav {
  import opened Strings
  import opened Navigation
  import ProjectSubmenu

  const MenuItems: seq<MenuItem> := [
    MenuItem("Home", "/", false, ""),
    MenuItem("Tableau", "/tableau", true, "tableau"),
    MenuItem(".NET", "/dotnet", true, "dotnet"),
    MenuItem("VB", "/vb", true, "vb"),
    MenuItem("Education", "/education", true, "education"),
    MenuItem("Resume", "/resume", true, "")
  ]

  /** `!!openMenus[key]`: an absent key reads as closed. */
  function IsOpen(openMenus: map<string, bool>, key: string): bool
  {
    key in openMenus && openMenus[key]
  }

  /** `handleToggle`: the entry flips between open and closed; the others keep their
      state. */
  function Toggled(openMenus: map<string, bool>, menuName: string): (r: map<string, bool>)
    ensures menuName in r && IsOpen(r, menuName) == !IsOpen(openMenus, menuName)
    ensures forall k :: k != menuName ==> (k in r <==> k in openMenus) && IsOpen(r, k) == IsOpen(openMenus, k)
  {
    openMenus[menuName := !IsOpen(openMenus, menuName)]
  }

  /** Toggling an entry twice restores its state and leaves the others alone; from a
      never-opened entry it ends up recorded as closed. */
  lemma ToggleTwice(openMenus: map<string, bool>, menuName: string)
    ensures var r := Toggled(Toggled(openMenus, menuName), menuName);
      IsOpen(r, menuName) == IsOpen(openMenus, menuName)
      && (menuName !in openMenus ==> r[menuName] == false)
      && forall k :: k != menuName ==> IsOpen(r, k) == IsOpen(openMenus, k)
  {
  }

  /** The content of an entry's collapsible section: the project list for an expandable
      entry with a category other than Education and Resume, and the education or resume
      submenu for those entries. */
  function Section(item: MenuItem): (r: seq<Submenu>)
    ensures |r| <= 1
    ensures r == [EducationMenu] <==> item.caption == "Education"
    ensures r == [ResumeMenu] <==> item.caption == "Resume"
    ensures forall c :: r == [ProjectMenu(c)] <==>
      (item.expandable && item.caption != "Resume" && item.caption != "Education" && item.category != "" && c == item.category)
  {
    // the three conditions exclude each other, so at most one section is shown
    if item.caption == "Education" then [EducationMenu]
    else if item.caption == "Resume" then [ResumeMenu]
    else if item.expandable && item.category != "" then [ProjectMenu(item.category)]
    else []
  }

  /** The drawer's sections: Home has none; Tableau, .NET and VB list the projects of a
      category that has them; Education and Resume hold their own submenus. */
  lemma SectionDispatch()
    ensures Section(MenuItems[0]) == []
    ensures forall k :: 1 <= k <= 3 ==>
      Section(MenuItems[k]) == [ProjectMenu(MenuItems[k].category)]
      && ProjectSubmenu.ProjectData(MenuItems[k].category).Some?
    ensures Section(MenuItems[4]) == [EducationMenu]
    ensures Section(MenuItems[5]) == [ResumeMenu]
  {
    ProjectSubmenu.KnownCategories("tableau");
    ProjectSubmenu.KnownCategories("dotnet");
    ProjectSubmenu.KnownCategories("vb");
  }

  /** A text that starts with `p` does not start with `q` when neither of `p` and `q` is a
      prefix of the other. */
  lemma PrefixFree(p: string, rest: string, q: string)
    requires !StartsWith(p, q) && !StartsWith(q, p)
    ensures !StartsWith(p + rest, q)
  {
    var s := p + rest;
    if |q| <= |p| {
      assert s[..|q|] == p[..|q|];
    } else if |q| <= |s| {
      assert s[..|q|][..|p|] == p;
    }
  }

  /** No section path is a prefix of another: their second characters differ. */
  lemma SectionPathsPrefixFree(j: nat, k: nat)
    requires 1 <= j < |MenuItems| && 1 <= k < |MenuItems| && j != k
    ensures !StartsWith(MenuItems[j].path, MenuItems[k].path)
  {
    var p, q := MenuItems[j].path, MenuItems[k].path;
    assert |p| >= 2 && |q| >= 2 && p[1] != q[1];
    if |q| <= |p| {
      assert p[..|q|][1] == p[1];
    }
  }

  /** On the page of a section or any page below it, that section's entry is the only one
      highlighted. */
  lemma OneActiveEntry(k: nat, rest: string, j: nat)
    requires 1 <= k < |MenuItems| && j < |MenuItems|
    ensures IsActive(MenuItems[k].path + rest, MenuItems[j].path) <==> j == k
  {
    var p := MenuItems[k].path;
    if j == k {
      SectionActiveBelowIt(p, rest);
    } else if j == 0 {
      assert |p + rest| >= 2;
    } else {
      SectionPathsPrefixFree(k, j);
      SectionPathsPrefixFree(j, k);
      PrefixFree(p, rest, MenuItems[j].path);
    }
  }

  /** On the home page only the Home entry is highlighted. */
  lemma HomeActiveOnlyAtRoot(j: nat)
    requires j < |MenuItems|
    ensures IsActive("/", MenuItems[j].path) <==> j == 0
  {
  }

  /** The drawer's state: which sections are open, the paths navigated to, and how many
      times it asked its owner to close it. */
  class MobileNav {
    var openMenus: map<string, bool>
    var visited: seq<string>
    var closeRequests: nat
    const currentPath: string

    constructor (currentPath: string)
      ensures openMenus == map[] && visited == [] && closeRequests == 0
      ensures this.currentPath == currentPath
    {
      openMenus := map[];
      visited := [];
      closeRequests := 0;
      this.currentPath := currentPath;
    }

    /** `handleToggle` */
    method HandleToggle(menuName: string)
      modifies this
      ensures openMenus == Toggled(old(openMenus), menuName)
      ensures visited == old(visited) && closeRequests == old(closeRequests)
    {
      openMenus := openMenus[menuName := !IsOpen(openMenus, menuName)];
    }

    /** `handleNavigate`: navigate, then call `onClose`. */
    method HandleNavigate(path: string)
      modifies this
      ensures visited == old(visited) + [path]
      ensures closeRequests == old(closeRequests) + 1
      ensures openMenus == old(openMenus)
    {
      var effects := NavigateAndClose(path);
      visited := visited + [effects[0].path];
      closeRequests := closeRequests + 1;
    }

    /** Whether an entry is highlighted. */
    function Highlighted(item: MenuItem): bool
      reads this
    {
      IsActive(currentPath, item.path)
    }
  }
}
