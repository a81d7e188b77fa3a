/** The sidebar of src/components/Layout/ModernSidebar.tsx: its eight-entry
    section table, the role filter, and the navigation handler, which sets the
    parent's active section and closes the mobile menu. */
module Sidebar {
  import opened Lists
  import opened Domain
  import opened Navigation

  const All: seq<Role> := [StudentRole, FacultyRole, AdminRole]
  const Staff: seq<Role> := [FacultyRole, AdminRole]

  function SidebarItems(): seq<NavItem>
  {
    [ NavItem("dashboard", "Dashboard", All),
      NavItem("attendance", "Attendance", All),
      NavItem("classes", "Classes", Staff),
      NavItem("students", "Students", Staff),
      NavItem("faculty", "Faculty", [AdminRole]),
      NavItem("reports", "Reports", Staff),
      NavItem("analytics", "Analytics", Staff),
      NavItem("settings", "Settings", All) ]
  }

  /** A student sees only dashboard, attendance and settings. */
  lemma SidebarForStudent(u: User)
    requires u.role == StudentRole
    ensures Ids(VisibleItems(SidebarItems(), Some(u))) == ["dashboard", "attendance", "settings"]
  {
  }

  /** A faculty member sees everything except the faculty section. */
  lemma SidebarForFaculty(u: User)
    requires u.role == FacultyRole
    ensures Ids(VisibleItems(SidebarItems(), Some(u)))
      == ["dashboard", "attendance", "classes", "students", "reports", "analytics", "settings"]
  {
  }

  /** An admin sees all eight sections. */
  lemma SidebarForAdmin(u: User)
    requires u.role == AdminRole
    ensures VisibleItems(SidebarItems(), Some(u)) == SidebarItems()
  {
  }

  lemma SidebarIdsDistinct()
    ensures forall a, b :: 0 <= a < b < |SidebarItems()| ==> SidebarItems()[a].id != SidebarItems()[b].id
  {
  }

  /** The parent's section state as the sidebar drives it. */
  class SidebarState {
    var activeSection: string
    var isOpen: bool

    constructor (section: string)
      ensures activeSection == section && !isOpen
    {
      activeSection := section;
      isOpen := false;
    }

    /** `handleNavigation(id)`. */
    method HandleNavigation(sectionId: string)
      modifies this
      ensures activeSection == sectionId && !isOpen
    {
      activeSection := sectionId;
      isOpen := false;
    }

    /** The overlay and the close button. */
    method Close()
      modifies this`isOpen
      ensures !isOpen
    {
      isOpen := false;
    }
  }
}
