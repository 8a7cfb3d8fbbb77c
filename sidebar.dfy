/**
  The role-based sidebar: the navigation items a role may see, the item
  of the current route, and the mobile menu that navigation, the toggle
  button and a wide window close or open.
*/
module Sidebar {
  import opened Common

  /** The sidebar's labels in one language. */
  datatype SidebarLabels = SidebarLabels(
    employeeDashboard: string, hrDashboard: string, attendanceHistory: string,
    manageEmployees: string, attendanceReports: string)

  const FrenchLabels := SidebarLabels("Tableau de Bord Employé", "Tableau de Bord RH",
    "Historique des Présences", "Gérer les Employés", "Rapports de Présence")
  const EnglishLabels := SidebarLabels("Employee Dashboard", "HR Dashboard",
    "Attendance History", "Manage Employees", "Attendance Reports")

  /** `translations[currentLanguage] || translations.fr`. */
  function LabelsFor(language: string): (t: SidebarLabels)
    ensures t == EnglishLabels <==> language == "en"
    ensures t == FrenchLabels <==> language != "en"
  {
    if language == "en" then EnglishLabels else FrenchLabels
  }

  /** A navigation item and the roles allowed to see it. */
  datatype NavItem = NavItem(id: string, caption: string, icon: string, path: string, roles: seq<string>)

  /** The roles given the HR dashboard, compared exactly as written. */
  predicate IsHrRole(role: string)
  {
    role == "admin" || role == "HR"
  }

  /** The dashboard item's target. */
  function DashboardPath(role: string): (path: string)
    ensures path == "/hr-admin-dashboard" <==> IsHrRole(role)
    ensures path == "/employee-dashboard" <==> !IsHrRole(role)
  {
    if IsHrRole(role) then "/hr-admin-dashboard" else "/employee-dashboard"
  }

  const BaseRoles := ["employee", "admin", "HR"]
  const AdminRoles := ["admin", "HR"]

  /** The four items before filtering, the dashboard's label and target depending on `hr`. */
  function AllItems(hr: bool, t: SidebarLabels): seq<NavItem>
  {
    [ NavItem("dashboard", if hr then t.hrDashboard else t.employeeDashboard, "LayoutDashboard",
              if hr then "/hr-admin-dashboard" else "/employee-dashboard", BaseRoles),
      NavItem("attendance", t.attendanceHistory, "Clock", "/personal-attendance-history", BaseRoles),
      NavItem("employees", t.manageEmployees, "Users", "/employee-management", AdminRoles),
      NavItem("reports", t.attendanceReports, "BarChart3", "/attendance-reports", AdminRoles) ]
  }

  /** The item filter as written: the role must appear, with the same case, among the item's roles. */
  function AllowsExactly(role: string): NavItem -> bool
  {
    (item: NavItem) => role in item.roles
  }

  /** `getNavigationItems()` as written. */
  function NavigationItems(role: string, t: SidebarLabels): (items: seq<NavItem>)
    ensures forall item :: item in items ==> role in item.roles
  {
    Filter(AllItems(IsHrRole(role), t), AllowsExactly(role))
  }

  /** One item kept or dropped by a filter. */
  function Keep(item: NavItem, p: NavItem -> bool): seq<NavItem>
  {
    if p(item) then [item] else []
  }

  /** `filter` over four items, one item at a time. */
  lemma FilterOfFour(all: seq<NavItem>, p: NavItem -> bool)
    requires |all| == 4
    ensures Filter(all, p) == Keep(all[0], p) + (Keep(all[1], p) + (Keep(all[2], p) + Keep(all[3], p)))
  {
    var s1, s2, s3 := all[1..], all[2..], all[3..];
    assert s1[1..] == s2 && s2[1..] == s3 && s3[1..] == [];
    FilterStep(s3, p);
    assert Filter(s3, p) == Keep(all[3], p);
    FilterStep(s2, p);
    FilterStep(s1, p);
    FilterStep(all, p);
  }

  /** A filter that keeps the first two of four items only. */
  lemma KeepsFirstTwo(all: seq<NavItem>, p: NavItem -> bool)
    requires |all| == 4
    requires p(all[0]) && p(all[1]) && !p(all[2]) && !p(all[3])
    ensures Filter(all, p) == all[..2]
  {
    FilterOfFour(all, p);
    assert all[..2] == [all[0], all[1]];
  }

  /** A filter that keeps none of four items. */
  lemma KeepsNone(all: seq<NavItem>, p: NavItem -> bool)
    requires |all| == 4
    requires !p(all[0]) && !p(all[1]) && !p(all[2]) && !p(all[3])
    ensures Filter(all, p) == []
  {
    FilterOfFour(all, p);
  }

  /** The identifiers of some items, in order. */
  function Ids(items: seq<NavItem>): (ids: seq<string>)
    ensures |ids| == |items|
    ensures forall i :: 0 <= i < |items| ==> ids[i] == items[i].id
  {
    seq(|items|, i requires 0 <= i < |items| => items[i].id)
  }

  /** The four items are the dashboard, the history, the employees and the reports, with four different targets. */
  lemma AllItemsFacts(hr: bool, t: SidebarLabels)
    ensures Ids(AllItems(hr, t)) == ["dashboard", "attendance", "employees", "reports"]
    ensures Ids(AllItems(hr, t)[..2]) == ["dashboard", "attendance"]
    ensures AllItems(hr, t)[0].path == (if hr then "/hr-admin-dashboard" else "/employee-dashboard")
    ensures forall i, j :: 0 <= i < j < 4 ==> AllItems(hr, t)[i].path != AllItems(hr, t)[j].path
  {
    var all := AllItems(hr, t);
    var ids := Ids(all);
    assert ids[0] == "dashboard" && ids[1] == "attendance";
    assert ids[2] == "employees" && ids[3] == "reports";
    var two := Ids(all[..2]);
    assert two[0] == "dashboard" && two[1] == "attendance";
  }

  /**
    What each role sees as written: "employee" the dashboard and the
    history, with the employee dashboard; "admin" and "HR" all four items,
    with the HR dashboard; any other string nothing.
  */
  lemma NavigationByRole(role: string, t: SidebarLabels)
    ensures role == "employee" ==> NavigationItems(role, t) == AllItems(false, t)[..2]
    ensures IsHrRole(role) ==> NavigationItems(role, t) == AllItems(true, t)
    ensures role !in {"employee", "admin", "HR"} ==> NavigationItems(role, t) == []
  {
    var all := AllItems(IsHrRole(role), t);
    var p := AllowsExactly(role);
    assert all[0].roles == all[1].roles == BaseRoles;
    assert all[2].roles == all[3].roles == AdminRoles;
    if role == "employee" {
      KeepsFirstTwo(all, p);
    } else if IsHrRole(role) {
      assert role in BaseRoles && role in AdminRoles;
      FilterAllPass(all, p);
    } else {
      KeepsNone(all, p);
    }
  }

  /** The same, by item identifier and dashboard target. */
  lemma NavigationIdsByRole(role: string, t: SidebarLabels)
    ensures role == "employee" ==>
      (Ids(NavigationItems(role, t)) == ["dashboard", "attendance"]
       && NavigationItems(role, t)[0].path == "/employee-dashboard")
    ensures IsHrRole(role) ==>
      (Ids(NavigationItems(role, t)) == ["dashboard", "attendance", "employees", "reports"]
       && NavigationItems(role, t)[0].path == "/hr-admin-dashboard")
  {
    NavigationByRole(role, t);
    AllItemsFacts(IsHrRole(role), t);
  }

  /**
    The roles the pages actually pass include "hr" (the HR dashboard and
    the employee management pages) and "Employee" (the personal history
    page); as written, neither sees a single item.
  */
  lemma PageRolesSeeNothingAsWritten(t: SidebarLabels)
    ensures NavigationItems("hr", t) == []
    ensures NavigationItems("Employee", t) == []
  {
    NavigationByRole("hr", t);
    NavigationByRole("Employee", t);
  }

  /** Every role in `roles`, lower-cased. */
  function LowerAll(roles: seq<string>): (r: seq<string>)
    ensures |r| == |roles|
    ensures forall i :: 0 <= i < |roles| ==> r[i] == Lower(roles[i])
  {
    seq(|roles|, i requires 0 <= i < |roles| => Lower(roles[i]))
  }

  /** The HR roles, compared without regard to case. */
  predicate IsHrRoleFixed(role: string)
  {
    Lower(role) == "admin" || Lower(role) == "hr"
  }

  /** The dashboard target with the roles compared without regard to case. */
  function DashboardPathFixed(role: string): (path: string)
    ensures path == "/hr-admin-dashboard" <==> IsHrRoleFixed(role)
    ensures path == "/employee-dashboard" <==> !IsHrRoleFixed(role)
  {
    if IsHrRoleFixed(role) then "/hr-admin-dashboard" else "/employee-dashboard"
  }

  /** The item filter with the roles compared without regard to case. */
  function AllowsIgnoringCase(role: string): NavItem -> bool
  {
    (item: NavItem) => Lower(role) in LowerAll(item.roles)
  }

  /** `getNavigationItems()` as evidently intended: role names compared without regard to case. */
  function NavigationItemsFixed(role: string, t: SidebarLabels): (items: seq<NavItem>)
    ensures forall item :: item in items ==> Lower(role) in LowerAll(item.roles)
  {
    Filter(AllItems(IsHrRoleFixed(role), t), AllowsIgnoringCase(role))
  }

  lemma LowerOfRoles()
    ensures Lower("employee") == "employee" && Lower("admin") == "admin"
    ensures Lower("HR") == "hr" && Lower("hr") == "hr" && Lower("Employee") == "employee"
    ensures LowerAll(BaseRoles) == ["employee", "admin", "hr"]
    ensures LowerAll(AdminRoles) == ["admin", "hr"]
  {
    assert Lower("HR") == "hr";
    assert Lower("Employee") == "employee";
  }

  /**
    With the fix, every spelling of a role sees that role's items: an
    employee two, an administrator or HR all four, with the matching
    dashboard, and any other role nothing.
  */
  lemma NavigationByRoleFixed(role: string, t: SidebarLabels)
    ensures Lower(role) == "employee" ==> NavigationItemsFixed(role, t) == AllItems(false, t)[..2]
    ensures IsHrRoleFixed(role) ==> NavigationItemsFixed(role, t) == AllItems(true, t)
    ensures Lower(role) !in {"employee", "admin", "hr"} ==> NavigationItemsFixed(role, t) == []
  {
    LowerOfRoles();
    var all := AllItems(IsHrRoleFixed(role), t);
    var p := AllowsIgnoringCase(role);
    var r := Lower(role);
    assert all[0].roles == all[1].roles == BaseRoles;
    assert all[2].roles == all[3].roles == AdminRoles;
    if r == "employee" {
      KeepsFirstTwo(all, p);
    } else if IsHrRoleFixed(role) {
      assert r in LowerAll(BaseRoles) && r in LowerAll(AdminRoles);
      FilterAllPass(all, p);
    } else {
      assert r !in LowerAll(BaseRoles) && r !in LowerAll(AdminRoles);
      KeepsNone(all, p);
    }
  }

  /** With the fix, the roles the pages pass see their items: "hr" all four, "Employee" two. */
  lemma PageRolesSeeTheirItemsFixed(t: SidebarLabels)
    ensures Ids(NavigationItemsFixed("hr", t)) == ["dashboard", "attendance", "employees", "reports"]
    ensures Ids(NavigationItemsFixed("Employee", t)) == ["dashboard", "attendance"]
  {
    LowerOfRoles();
    NavigationByRoleFixed("hr", t);
    NavigationByRoleFixed("Employee", t);
    AllItemsFacts(true, t);
    AllItemsFacts(false, t);
  }

  /** The fix changes nothing for the three spellings the code already accepts. */
  lemma FixedAgreesOnExactRoles(role: string, t: SidebarLabels)
    requires role in {"employee", "admin", "HR"}
    ensures NavigationItemsFixed(role, t) == NavigationItems(role, t)
  {
    LowerOfRoles();
    NavigationByRole(role, t);
    NavigationByRoleFixed(role, t);
  }

  /** `isActiveRoute(path)`: the item's target is the current location. */
  predicate IsActiveRoute(pathname: string, path: string)
  {
    pathname == path
  }

  /**
    The item targets are all different, so at most one item of the menu
    (the corrected `NavigationItemsFixed`) is highlighted, whatever the
    role and the location.
  */
  lemma AtMostOneActive(role: string, t: SidebarLabels, pathname: string, i: nat, j: nat)
    requires i < |NavigationItemsFixed(role, t)| && j < |NavigationItemsFixed(role, t)|
    requires IsActiveRoute(pathname, NavigationItemsFixed(role, t)[i].path)
    requires IsActiveRoute(pathname, NavigationItemsFixed(role, t)[j].path)
    ensures i == j
  {
    NavigationByRoleFixed(role, t);
    AllItemsFacts(IsHrRoleFixed(role), t);
  }

  /** The sidebar's own state: whether the mobile menu is open, and the routes navigated to. */
  class SidebarState {
    var isMobileMenuOpen: bool
    var navigatedTo: seq<string>

    constructor ()
      ensures !isMobileMenuOpen && navigatedTo == []
    {
      isMobileMenuOpen := false;
      navigatedTo := [];
    }

    /** `handleNavigation(path)`: the route opens and the mobile menu closes. */
    method HandleNavigation(path: string)
      modifies this
      ensures navigatedTo == old(navigatedTo) + [path] && !isMobileMenuOpen
    {
      navigatedTo := navigatedTo + [path];
      isMobileMenuOpen := false;
    }

    /** `handleMobileToggle()`. */
    method MobileToggle()
      modifies this`isMobileMenuOpen
      ensures isMobileMenuOpen == !old(isMobileMenuOpen)
    {
      isMobileMenuOpen := !isMobileMenuOpen;
    }

    /** The overlay and the close button. */
    method CloseMenu()
      modifies this`isMobileMenuOpen
      ensures !isMobileMenuOpen
    {
      isMobileMenuOpen := false;
    }

    /** The resize listener: a window at least 768 pixels wide closes the mobile menu; a narrower one leaves it. */
    method Resize(innerWidth: int)
      modifies this`isMobileMenuOpen
      ensures innerWidth >= 768 ==> !isMobileMenuOpen
      ensures innerWidth < 768 ==> isMobileMenuOpen == old(isMobileMenuOpen)
    {
      if innerWidth >= 768 {
        isMobileMenuOpen := false;
      }
    }
  }

  /** Opening the menu and choosing an item navigates there and leaves the menu closed. */
  method OpenThenNavigate(path: string) returns (open: bool, visited: seq<string>)
    ensures !open && visited == [path]
  {
    var s := new SidebarState();
    s.MobileToggle();
    s.HandleNavigation(path);
    open, visited := s.isMobileMenuOpen, s.navigatedTo;
  }
}
