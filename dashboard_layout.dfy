/**
 * The dashboard frame: the permission-dependent navigation menu, which item is highlighted, the
 * page title, and the sidebar's open/collapsed/finance-expanded flags.
 */
module DashboardLayout {
  import opened Wrappers
  import Text

  // ---------------------------------------------------------------------------------------------
  // The navigation menu

  /** the signed-in user's permission flags the menu reads; a missing flag is false */
  datatype Permissions = Permissions(alterFinance: bool, viewBriefing: bool, manageStaff: bool, loanPrivileges: bool)

  datatype Child = Child(name: string, tab: string)

  /** the pages the menu can link to, in the order the full menu lists them */
  datatype Page = Overview | Customers | Deposits | Withdrawals | Finance | Reports | Staffs | Loans | Chat {
    function Name(): string {
      match this
      case Overview => "Overview"
      case Customers => "Customers"
      case Deposits => "Deposits"
      case Withdrawals => "Withdrawals"
      case Finance => "Finance"
      case Reports => "Reports"
      case Staffs => "Staffs"
      case Loans => "Loans"
      case Chat => "Chat"
    }

    function Href(): string {
      match this
      case Overview => DashboardHref
      case Customers => "/dashboard/clients"
      case Deposits => "/dashboard/contributions"
      case Withdrawals => "/dashboard/withdrawals"
      case Finance => FinanceHref
      case Reports => "/dashboard/reports"
      case Staffs => "/dashboard/staffs"
      case Loans => "/dashboard/loans"
      case Chat => "/dashboard/chat"
    }

    /** the position in the full menu */
    function Rank(): nat {
      match this
      case Overview => 0
      case Customers => 1
      case Deposits => 2
      case Withdrawals => 3
      case Finance => 4
      case Reports => 5
      case Staffs => 6
      case Loans => 7
      case Chat => 8
    }
  }

  /** a menu entry `{ name, href, children }`; only Finance has `children` */
  datatype NavItem = NavItem(page: Page, children: Option<seq<Child>>) {
    function Name(): string { page.Name() }
    function Href(): string { page.Href() }
  }

  const DashboardHref := "/dashboard"
  const FinanceHref := "/dashboard/expenses"

  const FullFinanceTabs := [
    Child("Overview", "overview"),
    Child("Revenue", "revenue"),
    Child("Commission", "commission"),
    Child("Expenses", "expenses"),
    Child("Assets", "assets"),
    Child("Float", "budget"),
    Child("Analytics", "analytics")]

  const ShortFinanceTabs := [Child("Float", "budget"), Child("Expenses", "expenses")]

  /** the Finance entry's sub-tabs */
  function FinanceChildren(p: Permissions): seq<Child> {
    if p.alterFinance then FullFinanceTabs else ShortFinanceTabs
  }

  /** the five entries every menu starts with */
  function Fixed(p: Permissions): seq<NavItem> {
    [ NavItem(Overview, None),
      NavItem(Customers, None),
      NavItem(Deposits, None),
      NavItem(Withdrawals, None),
      NavItem(Finance, Some(FinanceChildren(p))) ]
  }

  /** the entries a permission adds, each spread in only when its flag is set */
  function Optional(p: Permissions): seq<NavItem> {
    (if p.viewBriefing then [NavItem(Reports, None)] else [])
    + (if p.manageStaff then [NavItem(Staffs, None)] else [])
    + (if p.loanPrivileges then [NavItem(Loans, None)] else [])
  }

  /** `navigation` */
  function Navigation(p: Permissions): seq<NavItem> {
    Fixed(p) + Optional(p) + [NavItem(Chat, None)]
  }

  predicate HasEntry(nav: seq<NavItem>, page: Page) {
    exists i :: 0 <= i < |nav| && nav[i].page == page
  }

  /** entries in strictly increasing menu position */
  ghost predicate Ordered(nav: seq<NavItem>) {
    forall i, j :: 0 <= i < j < |nav| ==> nav[i].page.Rank() < nav[j].page.Rank()
  }

  lemma OptionalShape(p: Permissions)
    ensures Ordered(Optional(p))
    ensures forall x :: x in Optional(p) ==> 5 <= x.page.Rank() <= 7 && x.children.None?
    ensures HasEntry(Optional(p), Reports) <==> p.viewBriefing
    ensures HasEntry(Optional(p), Staffs) <==> p.manageStaff
    ensures HasEntry(Optional(p), Loans) <==> p.loanPrivileges
  {
    var o := Optional(p);
    if p.viewBriefing { assert o[0].page == Reports; }
    if p.manageStaff { assert o[if p.viewBriefing then 1 else 0].page == Staffs; }
    if p.loanPrivileges { assert o[|o| - 1].page == Loans; }
  }

  lemma JoinOrdered(a: seq<NavItem>, b: seq<NavItem>)
    requires Ordered(a) && Ordered(b)
    requires forall x, y :: x in a && y in b ==> x.page.Rank() < y.page.Rank()
    ensures Ordered(a + b)
  {
    forall i, j | 0 <= i < j < |a + b|
      ensures (a + b)[i].page.Rank() < (a + b)[j].page.Rank()
    {
      if i < |a| && j >= |a| {
        assert (a + b)[i] in a && (a + b)[j] in b;
      }
    }
  }

  lemma HasEntryAppend(a: seq<NavItem>, b: seq<NavItem>, page: Page)
    ensures HasEntry(a + b, page) <==> HasEntry(a, page) || HasEntry(b, page)
  {
    if HasEntry(a + b, page) {
      var i :| 0 <= i < |a + b| && (a + b)[i].page == page;
      if i >= |a| {
        assert b[i - |a|].page == page;
      }
    }
    if HasEntry(a, page) {
      var i :| 0 <= i < |a| && a[i].page == page;
      assert (a + b)[i].page == page;
    }
    if HasEntry(b, page) {
      var i :| 0 <= i < |b| && b[i].page == page;
      assert (a + b)[i + |a|].page == page;
    }
  }

  lemma FixedShape(p: Permissions)
    ensures |Fixed(p)| == 5 && Ordered(Fixed(p))
    ensures forall i :: 0 <= i < 5 ==> Fixed(p)[i].page.Rank() == i
    ensures forall i :: 0 <= i < 5 ==> (Fixed(p)[i].children.Some? <==> i == 4)
    ensures Fixed(p)[4].children == Some(FinanceChildren(p))
  {
  }

  /** a page absent from both parts of a menu is absent from the whole */
  lemma EntryOnlyFromOptional(p: Permissions, page: Page)
    requires 5 <= page.Rank() <= 7
    ensures HasEntry(Navigation(p), page) <==> HasEntry(Optional(p), page)
  {
    var f, o, c := Fixed(p), Optional(p), [NavItem(Chat, None)];
    FixedShape(p);
    HasEntryAppend(f + o, c, page);
    HasEntryAppend(f, o, page);
  }

  /** The menu always starts Overview, Customers, Deposits, Withdrawals, Finance and ends with Chat. */
  lemma NavigationEnds(p: Permissions)
    ensures var nav := Navigation(p);
            |nav| >= 6 && nav[0].page == Overview && nav[1].page == Customers && nav[2].page == Deposits
            && nav[3].page == Withdrawals && nav[4].page == Finance && nav[|nav| - 1].page == Chat
  {
    var f := Fixed(p);
    var nav := Navigation(p);
    FixedShape(p);
    assert nav == f + (Optional(p) + [NavItem(Chat, None)]);
    assert nav[0] == f[0] && nav[1] == f[1] && nav[2] == f[2] && nav[3] == f[3] && nav[4] == f[4];
    assert f[0].page.Rank() == 0 && f[1].page.Rank() == 1 && f[2].page.Rank() == 2;
    assert f[3].page.Rank() == 3 && f[4].page.Rank() == 4;
  }

  /** The entries follow the order of the full menu, so none repeats. */
  lemma NavigationOrdered(p: Permissions)
    ensures Ordered(Navigation(p))
  {
    var f, o, c := Fixed(p), Optional(p), [NavItem(Chat, None)];
    FixedShape(p);
    OptionalShape(p);
    JoinOrdered(f, o);
    JoinOrdered(f + o, c);
  }

  /** Only Finance has sub-tabs, and they are the ones the permissions select. */
  lemma NavigationChildren(p: Permissions)
    ensures var nav := Navigation(p);
            forall i :: 0 <= i < |nav| ==> (nav[i].children.Some? <==> i == 4)
    ensures |Navigation(p)| > 4 && Navigation(p)[4].children == Some(FinanceChildren(p))
  {
    var f, o := Fixed(p), Optional(p);
    var nav := Navigation(p);
    FixedShape(p);
    OptionalShape(p);
    forall i | 0 <= i < |nav|
      ensures nav[i].children.Some? <==> i == 4
    {
      if i < 5 {
        assert nav[i] == f[i];
      } else if i < |nav| - 1 {
        assert nav[i] == o[i - 5] && o[i - 5] in o;
      }
    }
    assert nav[4] == f[4];
  }

  /** Reports, Staffs and Loans appear exactly when their permission is set. */
  lemma NavigationPermissions(p: Permissions)
    ensures HasEntry(Navigation(p), Reports) <==> p.viewBriefing
    ensures HasEntry(Navigation(p), Staffs) <==> p.manageStaff
    ensures HasEntry(Navigation(p), Loans) <==> p.loanPrivileges
  {
    OptionalShape(p);
    EntryOnlyFromOptional(p, Reports);
    EntryOnlyFromOptional(p, Staffs);
    EntryOnlyFromOptional(p, Loans);
  }

  /** The short finance menu is part of the full one, and no two finance tabs share a `tab`. */
  lemma ShortTabsInFullMenu()
    ensures forall c :: c in ShortFinanceTabs ==> c in FullFinanceTabs
    ensures forall i, j :: 0 <= i < j < |FullFinanceTabs| ==> FullFinanceTabs[i].tab != FullFinanceTabs[j].tab
    ensures ShortFinanceTabs[0].tab != ShortFinanceTabs[1].tab
  {
    assert ShortFinanceTabs[0] == FullFinanceTabs[5] && ShortFinanceTabs[1] == FullFinanceTabs[3];
  }

  // ---------------------------------------------------------------------------------------------
  // Highlighting

  /** `isActive`: Overview only on its exact path, any other entry on its path or below it */
  predicate IsActive(href: string, path: string) {
    if href == DashboardHref then path == DashboardHref
    else path == href || Text.StartsWith(path, href + "/")
  }

  lemma StartsWithBoth(path: string, a: string, b: string)
    requires Text.StartsWith(path, a) && Text.StartsWith(path, b) && |a| <= |b|
    ensures Text.StartsWith(b, a)
  {
    assert b[..|a|] == path[..|b|][..|a|];
  }

  lemma ActiveBelow(href: string, path: string)
    requires href != DashboardHref && IsActive(href, path)
    ensures Text.StartsWith(path, href)
  {
    if path != href {
      assert path[..|href|] == path[..|href + "/"|][..|href|];
    }
  }

  /** no page's href is a prefix of another's, except the Overview one */
  lemma HrefsPrefixFree(a: Page, b: Page)
    requires a != b && a != Overview && b != Overview
    ensures !Text.StartsWith(b.Href(), a.Href())
  {
    var x, y := a.Href(), b.Href();
    assert x[11] != y[11] || x[12] != y[12] || x[13] != y[13];
  }

  /** Whatever the path, at most one page of the menu is active (`isActive`). */
  lemma AtMostOneActive(a: Page, b: Page, path: string)
    requires IsActive(a.Href(), path) && IsActive(b.Href(), path)
    ensures a == b
  {
    if a != b && a != Overview && b != Overview {
      ActiveBelow(a.Href(), path);
      ActiveBelow(b.Href(), path);
      if |a.Href()| <= |b.Href()| {
        StartsWithBoth(path, a.Href(), b.Href());
        HrefsPrefixFree(a, b);
      } else {
        StartsWithBoth(path, b.Href(), a.Href());
        HrefsPrefixFree(b, a);
      }
    }
  }

  // ---------------------------------------------------------------------------------------------
  // The page title

  /** `navigation.find(item => item.href === path)`: the first entry whose href is the path */
  function FindByHref(nav: seq<NavItem>, path: string): (r: Option<NavItem>)
    ensures r.Some? ==> r.value in nav && r.value.Href() == path
    ensures r.None? <==> forall item :: item in nav ==> item.Href() != path
    ensures forall i :: FirstHrefAt(nav, path, i) ==> r == Some(nav[i])
  {
    if nav == [] then None
    else if nav[0].Href() == path then Some(nav[0])
    else
      var rest := FindByHref(nav[1..], path);
      assert forall item :: item in nav ==> item == nav[0] || item in nav[1..];
      FirstHrefInTail(nav, path, rest);
      rest
  }

  /**
   * `children.find(child => child.tab === tab)`: the first child whose tab is the query's; a
   * missing `tab` parameter matches no child
   */
  function FindChild(children: seq<Child>, tab: Option<string>): (r: Option<Child>)
    ensures r.Some? ==> r.value in children && tab == Some(r.value.tab)
    ensures r.None? <==> forall c :: c in children ==> tab != Some(c.tab)
    ensures forall i :: FirstChildAt(children, tab, i) ==> r == Some(children[i])
  {
    if children == [] then None
    else if tab == Some(children[0].tab) then Some(children[0])
    else
      var rest := FindChild(children[1..], tab);
      assert forall c :: c in children ==> c == children[0] || c in children[1..];
      FirstChildInTail(children, tab, rest);
      rest
  }

  /** i is the first position of the menu whose href is the path */
  ghost predicate FirstHrefAt(nav: seq<NavItem>, path: string, i: int) {
    0 <= i < |nav| && nav[i].Href() == path && forall j :: 0 <= j < i ==> nav[j].Href() != path
  }

  /** i is the first position of the children whose tab is the query's */
  ghost predicate FirstChildAt(children: seq<Child>, tab: Option<string>, i: int) {
    0 <= i < |children| && tab == Some(children[i].tab) && forall j :: 0 <= j < i ==> tab != Some(children[j].tab)
  }

  /** the first match in the tail is the first match in the list when the head does not match */
  lemma FirstHrefInTail(nav: seq<NavItem>, path: string, rest: Option<NavItem>)
    requires nav != [] && nav[0].Href() != path
    requires forall i :: FirstHrefAt(nav[1..], path, i) ==> rest == Some(nav[1..][i])
    ensures forall i :: FirstHrefAt(nav, path, i) ==> rest == Some(nav[i])
  {
    forall i | FirstHrefAt(nav, path, i)
      ensures rest == Some(nav[i])
    {
      assert nav[1..][i - 1] == nav[i];
      forall j | 0 <= j < i - 1
        ensures nav[1..][j].Href() != path
      {
        assert nav[1..][j] == nav[j + 1];
      }
      assert FirstHrefAt(nav[1..], path, i - 1);
    }
  }

  lemma FirstChildInTail(children: seq<Child>, tab: Option<string>, rest: Option<Child>)
    requires children != [] && tab != Some(children[0].tab)
    requires forall i :: FirstChildAt(children[1..], tab, i) ==> rest == Some(children[1..][i])
    ensures forall i :: FirstChildAt(children, tab, i) ==> rest == Some(children[i])
  {
    forall i | FirstChildAt(children, tab, i)
      ensures rest == Some(children[i])
    {
      assert children[1..][i - 1] == children[i];
      forall j | 0 <= j < i - 1
        ensures tab != Some(children[1..][j].tab)
      {
        assert children[1..][j] == children[j + 1];
      }
      assert FirstChildAt(children[1..], tab, i - 1);
    }
  }

  /** the title under the finance page: the sub-tab's name when the `tab` query names one */
  function FinanceTitle(p: Permissions, tab: Option<string>): string {
    match FindChild(FinanceChildren(p), tab)
    case Some(child) => "Finance - " + child.name
    case None => "Finance"
  }

  /** `getCurrentPageName` as written: an entry whose href is the path wins first */
  function PageNameAsWritten(p: Permissions, path: string, tab: Option<string>): (name: string)
    ensures FindByHref(Navigation(p), path).Some? ==> name == FindByHref(Navigation(p), path).value.Name()
    ensures FindByHref(Navigation(p), path).None? && Text.StartsWith(path, FinanceHref) ==>
              name == (if FindChild(FinanceChildren(p), tab).Some?
                       then "Finance - " + FindChild(FinanceChildren(p), tab).value.name else "Finance")
    ensures FindByHref(Navigation(p), path).None? && !Text.StartsWith(path, FinanceHref) ==> name == "Dashboard"
  {
    match FindByHref(Navigation(p), path)
    case Some(item) => item.Name()
    case None => if Text.StartsWith(path, FinanceHref) then FinanceTitle(p, tab) else "Dashboard"
  }

  /**
   * The sidebar's finance links lead to `/dashboard/expenses?tab=...`, whose path is the Finance
   * entry's href, so as written the title is "Finance" whichever sub-tab is open.
   */
  lemma SubTabTitleUnreachable(p: Permissions, tab: Option<string>)
    ensures PageNameAsWritten(p, FinanceHref, tab) == "Finance"
    ensures PageNameAsWritten(p, FinanceHref, Some("revenue")) != "Finance - Revenue"
  {
    NavigationEnds(p);
    var nav := Navigation(p);
    assert nav[4].Href() == FinanceHref;
    assert FindByHref(nav, FinanceHref).Some?;
    var item := FindByHref(nav, FinanceHref).value;
    OnlyFinanceAtFinanceHref(item.page);
  }

  lemma OnlyFinanceAtFinanceHref(page: Page)
    ensures page.Href() == FinanceHref <==> page == Finance
  {
    match page
    case Overview => assert |page.Href()| != |FinanceHref|;
    case Finance =>
    case Customers => assert page.Href()[11] != FinanceHref[11];
    case Deposits => assert page.Href()[11] != FinanceHref[11];
    case Withdrawals => assert page.Href()[11] != FinanceHref[11];
    case Reports => assert page.Href()[11] != FinanceHref[11];
    case Staffs => assert page.Href()[11] != FinanceHref[11];
    case Loans => assert page.Href()[11] != FinanceHref[11];
    case Chat => assert page.Href()[11] != FinanceHref[11];
  }

  /** the title with the sub-tab checked first, as the finance branch is meant to be reached */
  function PageName(p: Permissions, path: string, tab: Option<string>): (name: string)
    ensures Text.StartsWith(path, FinanceHref) && FindChild(FinanceChildren(p), tab).Some? ==>
              name == "Finance - " + FindChild(FinanceChildren(p), tab).value.name
    ensures !Text.StartsWith(path, FinanceHref) || FindChild(FinanceChildren(p), tab).None? ==>
              name == PageNameAsWritten(p, path, tab)
  {
    if Text.StartsWith(path, FinanceHref) && FindChild(FinanceChildren(p), tab).Some? then FinanceTitle(p, tab)
    else PageNameAsWritten(p, path, tab)
  }

  /** Each finance sub-tab link gets its own title. */
  lemma SubTabTitles(p: Permissions, c: Child)
    requires c in FinanceChildren(p)
    ensures PageName(p, FinanceHref, Some(c.tab)) == "Finance - " + c.name
  {
    ShortTabsInFullMenu();
    var children := FinanceChildren(p);
    var found := FindChild(children, Some(c.tab));
    assert found.Some?;
    var i :| 0 <= i < |children| && children[i] == found.value;
    var j :| 0 <= j < |children| && children[j] == c;
    if !p.alterFinance {
      assert children[0].tab != children[1].tab;
    }
    assert i == j;
  }

  // ---------------------------------------------------------------------------------------------
  // The sidebar

  /** at this window width and above the layout is the desktop one */
  const DesktopWidth := 1024

  datatype SidebarState = SidebarState(open: bool, collapsed: bool, openFinance: bool)

  /** `toggleSidebar`: collapse or expand on desktop (expanding also opens), open or close below */
  function Toggled(s: SidebarState, width: int): (t: SidebarState)
    ensures t.openFinance == s.openFinance
    ensures width >= DesktopWidth ==> t.collapsed == !s.collapsed && t.open == (s.open || s.collapsed)
    ensures width < DesktopWidth ==> t.open == !s.open && t.collapsed == s.collapsed
  {
    if width >= DesktopWidth then
      s.(collapsed := !s.collapsed, open := if s.collapsed then true else s.open)
    else s.(open := !s.open)
  }

  /** `toggleMobileSidebar`: defined in the layout, but no element's handler calls it */
  function MobileToggled(s: SidebarState): SidebarState {
    s.(collapsed := false, open := true)
  }

  /** `handleResize` */
  function Resized(s: SidebarState, width: int): (t: SidebarState)
    ensures width >= DesktopWidth ==> t.open && t.collapsed == s.collapsed
    ensures width < DesktopWidth ==> !t.collapsed && t.open == s.open
    ensures t.openFinance == s.openFinance
  {
    if width >= DesktopWidth then s.(open := true) else s.(collapsed := false)
  }

  /** `handleClickOutside`: a click outside the sidebar and its toggle button closes it on mobile */
  function ClickedOutside(s: SidebarState, width: int, inSidebar: bool, onToggleButton: bool): (t: SidebarState)
    ensures t.open <==> s.open && (width >= DesktopWidth || inSidebar || onToggleButton)
    ensures t.collapsed == s.collapsed && t.openFinance == s.openFinance
  {
    if width < DesktopWidth && s.open && !inSidebar && !onToggleButton then s.(open := false) else s
  }

  /** the effect on a path change: entering the finance pages expands the finance menu */
  function PathEntered(s: SidebarState, path: string): (t: SidebarState)
    ensures Text.StartsWith(path, FinanceHref) ==> t.openFinance
    ensures !Text.StartsWith(path, FinanceHref) ==> t == s
    ensures t.open == s.open && t.collapsed == s.collapsed
  {
    if Text.StartsWith(path, FinanceHref) then s.(openFinance := true) else s
  }

  /** the Finance button: expand or fold its sub-tabs */
  function FinanceToggled(s: SidebarState): SidebarState {
    s.(openFinance := !s.openFinance)
  }

  /** a click on the mobile backdrop */
  function BackdropClicked(s: SidebarState): SidebarState {
    s.(open := false)
  }

  /**
   * Toggling twice at one width restores the sidebar, except on desktop when it was closed: the
   * expanding toggle of the two opens it, and it stays open.
   */
  lemma ToggleTwice(s: SidebarState, width: int)
    ensures width < DesktopWidth || s.open ==> Toggled(Toggled(s, width), width) == s
    ensures width >= DesktopWidth && !s.open ==> Toggled(Toggled(s, width), width) == s.(open := true)
  {
  }

  /** A resize repeated at the same width changes nothing more, nor does a second mobile toggle. */
  lemma ResizeSettles(s: SidebarState, width: int)
    ensures Resized(Resized(s, width), width) == Resized(s, width)
    ensures MobileToggled(MobileToggled(s)) == MobileToggled(s)
    ensures MobileToggled(s).open && !MobileToggled(s).collapsed
  {
  }

  /** The path effect never folds the finance menu. */
  lemma PathNeverFoldsFinance(s: SidebarState, path: string)
    ensures s.openFinance ==> PathEntered(s, path).openFinance
  {
  }

  /** the layout's sidebar flags */
  class Sidebar {
    var open: bool
    var collapsed: bool
    var openFinance: bool

    function State(): SidebarState
      reads this
    {
      SidebarState(open, collapsed, openFinance)
    }

    /** the initial state: open, expanded, finance folded */
    constructor()
      ensures State() == SidebarState(true, false, false)
    {
      open, collapsed, openFinance := true, false, false;
    }

    method ToggleSidebar(width: int)
      modifies this
      ensures State() == Toggled(old(State()), width)
    {
      if width >= DesktopWidth {
        var wasCollapsed := collapsed;
        collapsed := !collapsed;
        if wasCollapsed {
          open := true;
        }
      } else {
        open := !open;
      }
    }

    /** an unused handler: nothing in the rendered layout reaches this transition */
    method ToggleMobileSidebar()
      modifies this
      ensures State() == MobileToggled(old(State()))
      ensures open && !collapsed
    {
      collapsed := false;
      open := true;
    }

    method Resize(width: int)
      modifies this
      ensures State() == Resized(old(State()), width)
    {
      if width >= DesktopWidth {
        open := true;
      } else {
        collapsed := false;
      }
    }

    method ClickOutside(width: int, inSidebar: bool, onToggleButton: bool)
      modifies this
      ensures State() == ClickedOutside(old(State()), width, inSidebar, onToggleButton)
    {
      if width < DesktopWidth && open && !inSidebar && !onToggleButton {
        open := false;
      }
    }

    method EnterPath(path: string)
      modifies this
      ensures State() == PathEntered(old(State()), path)
    {
      if Text.StartsWith(path, FinanceHref) {
        openFinance := true;
      }
    }

    method ToggleFinance()
      modifies this
      ensures State() == FinanceToggled(old(State()))
    {
      openFinance := !openFinance;
    }

    /**
     * `setIsSidebarOpen(false)`: the backdrop click, and the same step the logo link, the close
     * button, every navigation link and the notification bell take
     */
    method ClickBackdrop()
      modifies this
      ensures State() == BackdropClicked(old(State()))
      ensures !open
    {
      open := false;
    }
  }
}
