/** The navigation sidebar (src/components/AppSidebar.tsx): which menu a
    role sees, which entry is highlighted, and whether the group is open. */
module Sidebar {
  import opened Common

  /** A menu entry; its icon is not part of this model. */
  datatype NavItem = NavItem(title: string, url: string)

  const AdminItems: seq<NavItem> := [
    NavItem("Dashboard", "/dashboard"),
    NavItem("Menu Management", "/menu"),
    NavItem("Inventory", "/inventory"),
    NavItem("Finances", "/finances"),
    NavItem("Reports", "/reports"),
    NavItem("Settings", "/settings")]

  const MemberItems: seq<NavItem> := [
    NavItem("My Dashboard", "/member-dashboard"),
    NavItem("Settings", "/settings")]

  /** Whether a menu lists a url. */
  predicate Lists(items: seq<NavItem>, url: string)
  {
    exists i :: 0 <= i < |items| && items[i].url == url
  }

  /** The menu for the signed-in user's role; `None` stands for a missing
      profile or a null role. Only admins and managers get the full menu. */
  function NavigationItems(role: Option<string>): (r: seq<NavItem>)
    ensures role == Some("admin") || role == Some("manager") ==> r == AdminItems
    ensures !(role == Some("admin") || role == Some("manager")) ==> r == MemberItems
  {
    if role == Some("admin") || role == Some("manager") then AdminItems else MemberItems
  }

  /** An entry is highlighted when its url is exactly the current path. */
  predicate IsActive(currentPath: string, path: string)
  {
    currentPath == path
  }

  /** `some` over the menu: whether any entry is highlighted. */
  function AnyActive(items: seq<NavItem>, currentPath: string): (r: bool)
    ensures r <==> exists i :: 0 <= i < |items| && IsActive(currentPath, items[i].url)
  {
    if items == [] then false
    else IsActive(currentPath, items[0].url) || AnyActive(items[1..], currentPath)
  }

  /** The group is open exactly when the current path is one of the role's
      menu entries. */
  function IsExpanded(role: Option<string>, currentPath: string): (r: bool)
    ensures r <==> Lists(NavigationItems(role), currentPath)
  {
    AnyActive(NavigationItems(role), currentPath)
  }

  const ActiveClasses := "bg-sidebar-accent text-sidebar-accent-foreground font-medium"
  const IdleClasses := "hover:bg-sidebar-accent/50"

  /** The accent style for the highlighted entry, the hover style for the rest. */
  function NavClasses(active: bool): (r: string)
    ensures r == ActiveClasses <==> active
    ensures r == IdleClasses <==> !active
  {
    if active then ActiveClasses else IdleClasses
  }

  /** No two entries of a menu share a url, so at most one entry is
      highlighted at a time. */
  lemma AtMostOneHighlighted(role: Option<string>, currentPath: string, i: nat, j: nat)
    requires i < |NavigationItems(role)| && j < |NavigationItems(role)|
    requires NavClasses(IsActive(currentPath, NavigationItems(role)[i].url)) == ActiveClasses
    requires NavClasses(IsActive(currentPath, NavigationItems(role)[j].url)) == ActiveClasses
    ensures i == j
  {
    var items := NavigationItems(role);
    assert items[i].url == currentPath == items[j].url;
    if role == Some("admin") || role == Some("manager") {
      assert AdminItems[0].url != AdminItems[1].url;
    }
  }

  /** Every role can reach the settings page, and on it the group is open. */
  lemma SettingsAlwaysListed(role: Option<string>)
    ensures Lists(NavigationItems(role), "/settings")
    ensures IsExpanded(role, "/settings")
  {
    if role == Some("admin") || role == Some("manager") {
      assert AdminItems[5].url == "/settings";
    } else {
      assert MemberItems[1].url == "/settings";
    }
  }

  /** Members see no link to the management pages; admins and managers see
      all of them but not the member dashboard. */
  lemma MemberMenuRestricted(role: Option<string>, url: string)
    requires url in {"/menu", "/inventory", "/finances", "/reports", "/dashboard"}
    ensures Lists(NavigationItems(role), url) <==> role == Some("admin") || role == Some("manager")
    ensures Lists(NavigationItems(role), "/member-dashboard") <==> !(role == Some("admin") || role == Some("manager"))
  {
    if role == Some("admin") || role == Some("manager") {
      var i := if url == "/dashboard" then 0 else if url == "/menu" then 1 else if url == "/inventory" then 2
               else if url == "/finances" then 3 else 4;
      assert AdminItems[i].url == url;
      assert forall j :: 0 <= j < |AdminItems| ==> AdminItems[j].url != "/member-dashboard";
    } else {
      assert forall j :: 0 <= j < |MemberItems| ==> MemberItems[j].url != url;
      assert MemberItems[0].url == "/member-dashboard";
    }
  }
}
