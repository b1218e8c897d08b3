/** What the two navigation bars and their submenus share: the menu entries, the submenu
    kinds, the effects of a click, and the rule that highlights the current section. */
module Navigation {
  import opened Strings

  /** What a click asks for, in order: a route change, then closing the menu that held
      the link. */
  datatype NavEffect = Navigate(path: string) | Close

  /** A top-level menu entry. */
  datatype MenuItem = MenuItem(caption: string, path: string, expandable: bool, category: string)

  /** The submenus an entry can open. */
  datatype Submenu = EducationMenu | ResumeMenu | ProjectMenu(category: string)

  /** The handlers that navigate and then call `onClose`. */
  function NavigateAndClose(path: string): (r: seq<NavEffect>)
    ensures |r| == 2 && r[0].Navigate? && r[0].path == path && r[1] == Close
  {
    [Navigate(path), Close]
  }

  /** `isActive(path)`: the home path is active only on the home page itself; any other
      path is active on every page whose path starts with it. */
  function IsActive(currentPath: string, path: string): (r: bool)
    ensures r ==> StartsWith(currentPath, path)
    ensures path == "/" ==> (r <==> currentPath == "/")
    ensures path != "/" ==> (r <==> StartsWith(currentPath, path))
  {
    if path == "/" then currentPath == "/" else StartsWith(currentPath, path)
  }

  /** A page below a section is shown with that section's entry active. */
  lemma SectionActiveBelowIt(section: string, rest: string)
    requires section != "/"
    ensures IsActive(section + rest, section)
  {
    assert (section + rest)[..|section|] == section;
  }
}
