/** What the sidebar (src/components/Layout/ModernSidebar.tsx) and the top bar
    (src/components/Layout/Navbar.tsx) share: a fixed table of sections, each
    offered to some roles, filtered by the signed-in user's role, with the
    current section highlighted. */
module Navigation {
  import opened Lists
  import opened Domain

  datatype NavItem = NavItem(id: string, title: string, roles: seq<Role>)

  /** `items.filter(item => user && item.roles.includes(user.role))`. */
  function VisibleItems(items: seq<NavItem>, user: Option<User>): seq<NavItem>
  {
    Filter(items, (item: NavItem) => user.Some? && user.value.role in item.roles)
  }

  function Ids(items: seq<NavItem>): seq<string>
  {
    Map(items, (item: NavItem) => item.id)
  }

  /** `activeSection === item.id`. */
  predicate Highlighted(activeSection: string, item: NavItem)
  {
    activeSection == item.id
  }

  /** With no user nothing is shown; otherwise exactly the items offered to the
      user's role, in table order. */
  lemma VisibleRule(items: seq<NavItem>, user: Option<User>, item: NavItem)
    ensures user.None? ==> VisibleItems(items, user) == []
    ensures item in VisibleItems(items, user) <==> item in items && user.Some? && user.value.role in item.roles
    ensures IsSubsequence(VisibleItems(items, user), items)
  {
    var p := (x: NavItem) => user.Some? && user.value.role in x.roles;
    if user.None? {
      FilterKeepsNone(items, p);
    }
    FilterMembers(items, p, item);
    FilterIsSubsequence(items, p);
  }

  /** When the ids are distinct, at most one shown item is highlighted, and it is
      the one whose id the active section names. */
  lemma HighlightRule(items: seq<NavItem>, activeSection: string, i: nat, j: nat)
    requires forall a, b :: 0 <= a < b < |items| ==> items[a].id != items[b].id
    requires i < |items| && j < |items|
    requires Highlighted(activeSection, items[i]) && Highlighted(activeSection, items[j])
    ensures i == j && items[i].id == activeSection
  {
  }
}
