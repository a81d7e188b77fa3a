/** The top bar of src/components/Layout/Navbar.tsx: a seven-entry section table
    (the sidebar's without analytics), the same role filter, and a click that
    hands the item's id to the parent. */
module Navbar {
  import opened Lists
  import opened Domain
  import opened Navigation
  import Sidebar

  function NavbarItems(): seq<NavItem>
  {
    [ NavItem("dashboard", "Dashboard", Sidebar.All),
      NavItem("attendance", "Attendance", Sidebar.All),
      NavItem("classes", "Classes", Sidebar.Staff),
      NavItem("students", "Students", Sidebar.Staff),
      NavItem("faculty", "Faculty", [AdminRole]),
      NavItem("reports", "Reports", Sidebar.Staff),
      NavItem("settings", "Settings", Sidebar.All) ]
  }

  /** The section a click on `item` selects. */
  function ClickTarget(item: NavItem): string
  {
    item.id
  }

  /** A student sees dashboard, attendance and settings. */
  lemma NavbarForStudent(u: User)
    requires u.role == StudentRole
    ensures Ids(VisibleItems(NavbarItems(), Some(u))) == ["dashboard", "attendance", "settings"]
  {
  }

  /** A faculty member sees six items: all but the faculty section. */
  lemma NavbarForFaculty(u: User)
    requires u.role == FacultyRole
    ensures Ids(VisibleItems(NavbarItems(), Some(u)))
      == ["dashboard", "attendance", "classes", "students", "reports", "settings"]
  {
  }

  /** An admin sees all seven items. */
  lemma NavbarForAdmin(u: User)
    requires u.role == AdminRole
    ensures VisibleItems(NavbarItems(), Some(u)) == NavbarItems() && |NavbarItems()| == 7
  {
  }

  /** No role is offered an analytics entry. */
  lemma NavbarHasNoAnalytics(user: Option<User>, item: NavItem)
    ensures forall i :: 0 <= i < |NavbarItems()| ==> NavbarItems()[i].id != "analytics"
    ensures item in VisibleItems(NavbarItems(), user) ==> item.id != "analytics"
  {
    VisibleRule(NavbarItems(), user, item);
  }

  /** The table's section ids are distinct. */
  lemma NavbarIdsDistinct()
    ensures forall a, b :: 0 <= a < b < |NavbarItems()| ==> NavbarItems()[a].id != NavbarItems()[b].id
  {
  }

  /** Clicking an entry selects the section under which that entry, and no
      other entry of the table, is highlighted. */
  lemma ClickHighlightsOnlyItem(k: nat, j: nat)
    requires k < |NavbarItems()| && j < |NavbarItems()|
    ensures Highlighted(ClickTarget(NavbarItems()[k]), NavbarItems()[j]) <==> j == k
  {
    if Highlighted(ClickTarget(NavbarItems()[k]), NavbarItems()[j]) {
      NavbarIdsDistinct();
      HighlightRule(NavbarItems(), ClickTarget(NavbarItems()[k]), k, j);
    }
  }
}
