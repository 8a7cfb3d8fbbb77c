/**
  The navigation breadcrumbs: the location split into its path segments,
  a home crumb for the role's dashboard, one crumb for every known route
  along the path, and whether the trail is shown at all.
*/
module Breadcrumbs {
  import opened Common
  import Sidebar

  /** The breadcrumb labels in one language. */
  datatype BreadcrumbLabels = BreadcrumbLabels(
    home: string, dashboard: string, employeeDashboard: string, hrDashboard: string,
    personalAttendance: string, employeeManagement: string, attendanceReports: string,
    loginAuthentication: string)

  const FrenchLabels := BreadcrumbLabels("Accueil", "Tableau de Bord", "Tableau de Bord Employé",
    "Tableau de Bord RH", "Mes Présences", "Gestion Employés", "Rapports de Présence", "Authentification")
  const EnglishLabels := BreadcrumbLabels("Home", "Dashboard", "Employee Dashboard",
    "HR Dashboard", "My Attendance", "Employee Management", "Attendance Reports", "Authentication")

  /** `translations[currentLanguage] || translations.fr`. */
  function LabelsFor(language: string): (t: BreadcrumbLabels)
    ensures t == EnglishLabels <==> language == "en"
    ensures t == FrenchLabels <==> language != "en"
  {
    if language == "en" then EnglishLabels else FrenchLabels
  }

  /** A known route's label and icon. */
  datatype RouteInfo = RouteInfo(caption: string, icon: string)

  /** `routeMap`: the seven known routes. */
  function RouteMap(t: BreadcrumbLabels): (routes: map<string, RouteInfo>)
    ensures |routes.Keys| == 7
  {
    map[
      "/" := RouteInfo(t.home, "Home"),
      "/employee-dashboard" := RouteInfo(t.employeeDashboard, "LayoutDashboard"),
      "/hr-admin-dashboard" := RouteInfo(t.hrDashboard, "LayoutDashboard"),
      "/personal-attendance-history" := RouteInfo(t.personalAttendance, "Clock"),
      "/employee-management" := RouteInfo(t.employeeManagement, "Users"),
      "/attendance-reports" := RouteInfo(t.attendanceReports, "BarChart3"),
      "/login-authentication" := RouteInfo(t.loginAuthentication, "Lock")
    ]
  }

  // ------------------------------------------------------------ path segments

  /** `s.split('/')`: the pieces between the slashes, empty ones included. */
  function SplitSlash(s: string): (pieces: seq<string>)
    ensures |pieces| >= 1
    ensures forall i :: 0 <= i < |pieces| ==> '/' !in pieces[i]
    decreases |s|
  {
    if '/' in s then
      var k := FirstIndex(s, '/');
      assert '/' !in s[..k] by {
        forall j | 0 <= j < k
          ensures s[..k][j] != '/'
        {
        }
      }
      [s[..k]] + SplitSlash(s[k + 1..])
    else
      [s]
  }

  /** `pieces.join('/')`. */
  function JoinSlash(pieces: seq<string>): string
    requires |pieces| >= 1
  {
    if |pieces| == 1 then pieces[0] else pieces[0] + "/" + JoinSlash(pieces[1..])
  }

  /** The first slash of a string ends its first piece; the rest splits on its own. */
  lemma SplitAtSlash(s: string)
    requires '/' in s
    ensures var k := FirstIndex(s, '/');
      SplitSlash(s) == [s[..k]] + SplitSlash(s[k + 1..]) && s == s[..k] + "/" + s[k + 1..]
  {
    var k := FirstIndex(s, '/');
    assert s == s[..k] + [s[k]] + s[k + 1..];
  }

  /** A slash-free piece, a slash and a rest split into that piece and the rest's pieces. */
  lemma SplitAtFirstSlash(x: string, rest: string)
    requires '/' !in x
    ensures SplitSlash(x + "/" + rest) == [x] + SplitSlash(rest)
  {
    var s := x + "/" + rest;
    assert s[|x|] == '/';
    assert forall j :: 0 <= j < |x| ==> s[j] == x[j];
    var k := FirstIndex(s, '/');
    assert k == |x|;
    assert s[..k] == x && s[k + 1..] == rest;
    SplitAtSlash(s);
  }

  /** Splitting on the slashes and joining again gives the string back. */
  lemma {:induction false} SplitThenJoin(s: string)
    ensures JoinSlash(SplitSlash(s)) == s
    decreases |s|
  {
    if '/' in s {
      var k := FirstIndex(s, '/');
      SplitAtSlash(s);
      SplitThenJoin(s[k + 1..]);
      assert SplitSlash(s)[1..] == SplitSlash(s[k + 1..]);
    }
  }

  /** Joining slash-free pieces and splitting again gives the pieces back. */
  lemma {:induction false} JoinThenSplit(pieces: seq<string>)
    requires |pieces| >= 1
    requires forall i :: 0 <= i < |pieces| ==> '/' !in pieces[i]
    ensures SplitSlash(JoinSlash(pieces)) == pieces
    decreases |pieces|
  {
    if |pieces| > 1 {
      var x, rest := pieces[0], JoinSlash(pieces[1..]);
      assert JoinSlash(pieces) == x + "/" + rest;
      SplitAtFirstSlash(x, rest);
      JoinThenSplit(pieces[1..]);
      assert pieces == [x] + pieces[1..];
    }
  }

  /** Is the segment non-empty (`filter(segment => segment)`). */
  function NonEmpty(): string -> bool
  {
    (segment: string) => segment != ""
  }

  /** `pathname.split('/').filter(segment => segment)`. */
  function Segments(pathname: string): (segs: seq<string>)
    ensures forall i :: 0 <= i < |segs| ==> segs[i] != "" && '/' !in segs[i]
  {
    var pieces := SplitSlash(pathname);
    var segs := Filter(pieces, NonEmpty());
    KeptPieces(pieces, segs);
    segs
  }

  /** The pieces a filter on non-emptiness keeps are non-empty and keep what the pieces had. */
  lemma KeptPieces(pieces: seq<string>, segs: seq<string>)
    requires forall i :: 0 <= i < |pieces| ==> '/' !in pieces[i]
    requires segs == Filter(pieces, NonEmpty())
    ensures forall i :: 0 <= i < |segs| ==> segs[i] != "" && '/' !in segs[i]
  {
    forall i | 0 <= i < |segs|
      ensures segs[i] != "" && '/' !in segs[i]
    {
      assert segs[i] in segs;
      var j :| 0 <= j < |pieces| && pieces[j] == segs[i];
    }
  }

  /**
    `currentPath` after the given segments: each one is added behind a
    slash.
  */
  function JoinPath(segs: seq<string>): (path: string)
    ensures |path| >= |segs|
  {
    if segs == [] then "" else JoinPath(segs[..|segs| - 1]) + "/" + segs[|segs| - 1]
  }

  lemma {:induction false} JoinPathCons(x: string, segs: seq<string>)
    ensures JoinPath([x] + segs) == "/" + x + JoinPath(segs)
    decreases |segs|
  {
    if segs != [] {
      var init := segs[..|segs| - 1];
      assert ([x] + segs)[..|segs|] == [x] + init;
      JoinPathCons(x, init);
    }
  }

  /** A slash-free head followed by the joined segments splits back into the head and the segments. */
  lemma {:induction false} SplitAfterHead(head: string, segs: seq<string>)
    requires '/' !in head
    requires forall i :: 0 <= i < |segs| ==> '/' !in segs[i]
    ensures SplitSlash(head + JoinPath(segs)) == [head] + segs
    decreases |segs|
  {
    if segs == [] {
      assert head + JoinPath(segs) == head;
    } else {
      JoinPathCons(segs[0], segs[1..]);
      assert segs == [segs[0]] + segs[1..];
      var rest := segs[0] + JoinPath(segs[1..]);
      assert head + JoinPath(segs) == head + "/" + rest;
      SplitAtFirstSlash(head, rest);
      SplitAfterHead(segs[0], segs[1..]);
    }
  }

  /** The path built from non-empty, slash-free segments gives those segments back. */
  lemma SegmentsOfJoinPath(segs: seq<string>)
    requires forall i :: 0 <= i < |segs| ==> segs[i] != "" && '/' !in segs[i]
    ensures Segments(JoinPath(segs)) == segs
  {
    SplitAfterHead("", segs);
    assert "" + JoinPath(segs) == JoinPath(segs);
    var pieces := [""] + segs;
    assert Filter(pieces, NonEmpty()) == Filter(segs, NonEmpty()) by {
      assert pieces[1..] == segs;
    }
    FilterAllPass(segs, NonEmpty());
  }

  /** The root has no segments. */
  lemma RootHasNoSegments()
    ensures Segments("/") == []
  {
    SplitAfterHead("", [""]);
    assert JoinPath([""]) == "/";
    assert Filter([""], NonEmpty()) == [];
  }

  /** A longer prefix of the segments gives a longer path that extends the shorter one. */
  lemma {:induction false} JoinPathGrows(segs: seq<string>, m: nat, n: nat)
    requires m < n <= |segs|
    ensures |JoinPath(segs[..m])| < |JoinPath(segs[..n])|
    ensures JoinPath(segs[..m]) <= JoinPath(segs[..n])
    decreases n
  {
    assert segs[..n][..n - 1] == segs[..n - 1];
    if m < n - 1 {
      JoinPathGrows(segs, m, n - 1);
    }
  }

  // --------------------------------------------------------------- the trail

  /** A crumb; the home crumb has no `isLast`, which reads as false. */
  datatype Crumb = Crumb(caption: string, path: string, icon: string, isLast: bool)

  /** The home crumb's target as written: the HR dashboard for "admin" and "hr" only. */
  function HomePath(role: string): (path: string)
    ensures path == "/hr-admin-dashboard" <==> role == "admin" || role == "hr"
    ensures path == "/employee-dashboard" <==> !(role == "admin" || role == "hr")
  {
    if role == "admin" || role == "hr" then "/hr-admin-dashboard" else "/employee-dashboard"
  }

  /** The crumb of the path `path` if it is a known route. */
  function RouteCrumb(routes: map<string, RouteInfo>, path: string, isLast: bool): seq<Crumb>
  {
    if path in routes then [Crumb(routes[path].caption, path, routes[path].icon, isLast)] else []
  }

  /** The crumbs of the first `n` segments: one for each prefix that is a known route. */
  function SegmentCrumbs(segs: seq<string>, routes: map<string, RouteInfo>, n: nat): seq<Crumb>
    requires n <= |segs|
  {
    if n == 0 then []
    else SegmentCrumbs(segs, routes, n - 1) + RouteCrumb(routes, JoinPath(segs[..n]), n - 1 == |segs| - 1)
  }

  /** The trail of a location for a given home crumb and route map: the home crumb except at the root, then the segment crumbs. */
  function Trail(pathname: string, home: Crumb, routes: map<string, RouteInfo>): seq<Crumb>
  {
    var segs := Segments(pathname);
    (if pathname != "/" then [home] else []) + SegmentCrumbs(segs, routes, |segs|)
  }

  /** `generateBreadcrumbs()` as written, for the location `pathname`. */
  function BreadcrumbsOf(pathname: string, role: string, t: BreadcrumbLabels): seq<Crumb>
  {
    Trail(pathname, Crumb(t.dashboard, HomePath(role), "LayoutDashboard", false), RouteMap(t))
  }

  /** `generateBreadcrumbs()` for a given home crumb and route map: the home crumb, then the loop over the segments. */
  method BuildTrail(pathname: string, home: Crumb, routes: map<string, RouteInfo>) returns (crumbs: seq<Crumb>)
    ensures crumbs == Trail(pathname, home, routes)
  {
    var segs := Segments(pathname);
    crumbs := [];
    if pathname != "/" {
      crumbs := crumbs + [home];
    }
    crumbs := AddSegmentCrumbs(crumbs, segs, routes);
  }

  /** The loop over the segments, building `currentPath` as it goes and pushing the crumb of each known route onto `start`. */
  method AddSegmentCrumbs(start: seq<Crumb>, segs: seq<string>, routes: map<string, RouteInfo>) returns (crumbs: seq<Crumb>)
    ensures crumbs == start + SegmentCrumbs(segs, routes, |segs|)
  {
    crumbs := start;
    var currentPath := "";
    var index := 0;
    while index < |segs|
      invariant 0 <= index <= |segs|
      invariant currentPath == JoinPath(segs[..index])
      invariant crumbs == start + SegmentCrumbs(segs, routes, index)
    {
      BuildStep(segs, routes, index);
      currentPath := currentPath + "/" + segs[index];
      if currentPath in routes {
        crumbs := crumbs + [Crumb(routes[currentPath].caption, currentPath, routes[currentPath].icon,
                                  index == |segs| - 1)];
      }
      index := index + 1;
    }
  }

  /** One turn of the loop: the path grows by the next segment, and its crumb, if any, is added. */
  lemma BuildStep(segs: seq<string>, routes: map<string, RouteInfo>, index: nat)
    requires index < |segs|
    ensures JoinPath(segs[..index + 1]) == JoinPath(segs[..index]) + "/" + segs[index]
    ensures SegmentCrumbs(segs, routes, index + 1) ==
      SegmentCrumbs(segs, routes, index) + RouteCrumb(routes, JoinPath(segs[..index + 1]), index == |segs| - 1)
  {
    assert segs[..index + 1][..index] == segs[..index];
  }

  /**
    `generateBreadcrumbs()` with the seven known routes, its home crumb
    leading to the role's dashboard whatever the case of the role (as
    written, `BreadcrumbsOf`, it compares the role case-sensitively).
  */
  method GenerateBreadcrumbs(pathname: string, role: string, t: BreadcrumbLabels) returns (crumbs: seq<Crumb>)
    ensures crumbs == BreadcrumbsOfFixed(pathname, role, t)
  {
    crumbs := BuildTrail(pathname, Crumb(t.dashboard, HomePathFixed(role), "LayoutDashboard", false), RouteMap(t));
  }

  /** A crumb of the first `n` segments stands for a known route at the path of some prefix. */
  predicate PlacedCrumb(segs: seq<string>, routes: map<string, RouteInfo>, n: nat, c: Crumb)
    requires n <= |segs|
  {
    && c.path in routes
    && c.caption == routes[c.path].caption && c.icon == routes[c.path].icon
    && (exists k :: 1 <= k <= n && c.path == JoinPath(segs[..k]))
    && (c.isLast <==> c.path == JoinPath(segs))
  }

  /**
    What the crumbs of the first `n` segments are: each is a known route
    with its own label and icon, at the path of some prefix of the
    segments, marked last exactly when it is the whole path; they run from
    the shortest path to the longest, each extending the one before; and
    no known prefix is skipped.
  */
  lemma SegmentCrumbsFacts(segs: seq<string>, routes: map<string, RouteInfo>, n: nat)
    requires n <= |segs|
    ensures forall i :: 0 <= i < |SegmentCrumbs(segs, routes, n)| ==>
      PlacedCrumb(segs, routes, n, SegmentCrumbs(segs, routes, n)[i])
    ensures forall i, j :: 0 <= i < j < |SegmentCrumbs(segs, routes, n)| ==>
      (|SegmentCrumbs(segs, routes, n)[i].path| < |SegmentCrumbs(segs, routes, n)[j].path|
       && SegmentCrumbs(segs, routes, n)[i].path <= SegmentCrumbs(segs, routes, n)[j].path)
    ensures forall k :: 1 <= k <= n && JoinPath(segs[..k]) in routes ==>
      (exists i :: 0 <= i < |SegmentCrumbs(segs, routes, n)| && SegmentCrumbs(segs, routes, n)[i].path == JoinPath(segs[..k]))
  {
    SegmentCrumbsPlaced(segs, routes, n);
    SegmentCrumbsOrdered(segs, routes, n);
    SegmentCrumbsComplete(segs, routes, n);
  }

  /** The path of a prefix of the segments is the whole path exactly when the prefix is all of them. */
  lemma PrefixPathIsWhole(segs: seq<string>, n: nat)
    requires 1 <= n <= |segs|
    ensures JoinPath(segs[..n]) == JoinPath(segs) <==> n == |segs|
  {
    assert segs[..|segs|] == segs;
    if n < |segs| {
      JoinPathGrows(segs, n, |segs|);
    }
  }

  /** The crumb a step adds, if its path is a known route. */
  lemma SegmentCrumbsStep(segs: seq<string>, routes: map<string, RouteInfo>, n: nat)
    requires 1 <= n <= |segs|
    ensures var path := JoinPath(segs[..n]);
      && (path in routes ==>
            (SegmentCrumbs(segs, routes, n) ==
             SegmentCrumbs(segs, routes, n - 1) + [Crumb(routes[path].caption, path, routes[path].icon, n == |segs|)]))
      && (path !in routes ==> SegmentCrumbs(segs, routes, n) == SegmentCrumbs(segs, routes, n - 1))
  {
  }

  lemma {:induction false} SegmentCrumbsPlaced(segs: seq<string>, routes: map<string, RouteInfo>, n: nat)
    requires n <= |segs|
    ensures forall i :: 0 <= i < |SegmentCrumbs(segs, routes, n)| ==>
      PlacedCrumb(segs, routes, n, SegmentCrumbs(segs, routes, n)[i])
    decreases n
  {
    if n > 0 {
      SegmentCrumbsPlaced(segs, routes, n - 1);
      var prev := SegmentCrumbs(segs, routes, n - 1);
      var path := JoinPath(segs[..n]);
      forall i | 0 <= i < |prev|
        ensures PlacedCrumb(segs, routes, n, prev[i])
      {
        assert PlacedCrumb(segs, routes, n - 1, prev[i]);
        var k :| 1 <= k <= n - 1 && prev[i].path == JoinPath(segs[..k]);
      }
      SegmentCrumbsStep(segs, routes, n);
      if path in routes {
        PrefixPathIsWhole(segs, n);
        assert PlacedCrumb(segs, routes, n, Crumb(routes[path].caption, path, routes[path].icon, n == |segs|));
      }
    }
  }

  lemma {:induction false} SegmentCrumbsOrdered(segs: seq<string>, routes: map<string, RouteInfo>, n: nat)
    requires n <= |segs|
    ensures forall i, j :: 0 <= i < j < |SegmentCrumbs(segs, routes, n)| ==>
      (|SegmentCrumbs(segs, routes, n)[i].path| < |SegmentCrumbs(segs, routes, n)[j].path|
       && SegmentCrumbs(segs, routes, n)[i].path <= SegmentCrumbs(segs, routes, n)[j].path)
    decreases n
  {
    if n > 0 {
      SegmentCrumbsOrdered(segs, routes, n - 1);
      SegmentCrumbsPlaced(segs, routes, n - 1);
      var prev := SegmentCrumbs(segs, routes, n - 1);
      var path := JoinPath(segs[..n]);
      forall i | 0 <= i < |prev|
        ensures |prev[i].path| < |path| && prev[i].path <= path
      {
        assert PlacedCrumb(segs, routes, n - 1, prev[i]);
        var k :| 1 <= k <= n - 1 && prev[i].path == JoinPath(segs[..k]);
        JoinPathGrows(segs, k, n);
      }
      SegmentCrumbsStep(segs, routes, n);
    }
  }

  lemma {:induction false} SegmentCrumbsComplete(segs: seq<string>, routes: map<string, RouteInfo>, n: nat)
    requires n <= |segs|
    ensures forall k :: 1 <= k <= n && JoinPath(segs[..k]) in routes ==>
      (exists i :: 0 <= i < |SegmentCrumbs(segs, routes, n)| && SegmentCrumbs(segs, routes, n)[i].path == JoinPath(segs[..k]))
    decreases n
  {
    if n > 0 {
      SegmentCrumbsComplete(segs, routes, n - 1);
      var prev := SegmentCrumbs(segs, routes, n - 1);
      var cs := SegmentCrumbs(segs, routes, n);
      var path := JoinPath(segs[..n]);
      SegmentCrumbsStep(segs, routes, n);
      forall k | 1 <= k <= n && JoinPath(segs[..k]) in routes
        ensures exists i :: 0 <= i < |cs| && cs[i].path == JoinPath(segs[..k])
      {
        if k < n {
          var i :| 0 <= i < |prev| && prev[i].path == JoinPath(segs[..k]);
          assert cs[i] == prev[i];
        } else {
          assert cs[|prev|].path == path;
        }
      }
    }
  }

  /** `breadcrumbs.length > 1` and not on the login page: when the trail is shown. */
  predicate Visible(pathname: string, crumbs: seq<Crumb>)
  {
    pathname != "/login-authentication" && |crumbs| > 1
  }

  /**
    For a location made of non-empty segments: the trail starts with the
    home crumb, then the known routes along the path; the last crumb is
    the current location, marked last, exactly when that location is a
    known route, and otherwise no crumb is marked.
  */
  lemma TrailOfPath(segs: seq<string>, home: Crumb, routes: map<string, RouteInfo>)
    requires segs != []
    requires forall i :: 0 <= i < |segs| ==> segs[i] != "" && '/' !in segs[i]
    requires !home.isLast
    ensures var p, crumbs := JoinPath(segs), Trail(JoinPath(segs), home, routes);
      |crumbs| >= 1
      && crumbs[0] == home
      && crumbs[1..] == SegmentCrumbs(segs, routes, |segs|)
      && (p in routes ==> crumbs[|crumbs| - 1].path == p && crumbs[|crumbs| - 1].isLast)
      && (p !in routes ==> forall i :: 0 <= i < |crumbs| ==> !crumbs[i].isLast)
  {
    var p := JoinPath(segs);
    var rest := SegmentCrumbs(segs, routes, |segs|);
    TrailOfJoin(segs, home, routes);
    var crumbs := Trail(p, home, routes);
    assert crumbs == [home] + rest;
    assert crumbs[1..] == rest;
    assert segs[..|segs|] == segs;
    if p in routes {
      BuildStep(segs, routes, |segs| - 1);
      assert crumbs[|crumbs| - 1] == Crumb(routes[p].caption, p, routes[p].icon, true);
    } else {
      SegmentCrumbsPlaced(segs, routes, |segs|);
      forall i | 0 <= i < |crumbs|
        ensures !crumbs[i].isLast
      {
        if i > 0 {
          assert crumbs[i] == rest[i - 1];
          assert PlacedCrumb(segs, routes, |segs|, rest[i - 1]);
        }
      }
    }
  }

  /** The trail of a path built from non-empty segments: the home crumb, then the segments' crumbs. */
  lemma TrailOfJoin(segs: seq<string>, home: Crumb, routes: map<string, RouteInfo>)
    requires segs != []
    requires forall i :: 0 <= i < |segs| ==> segs[i] != "" && '/' !in segs[i]
    ensures Trail(JoinPath(segs), home, routes) == [home] + SegmentCrumbs(segs, routes, |segs|)
  {
    SegmentsOfJoinPath(segs);
    JoinPathCons(segs[0], segs[1..]);
    assert segs == [segs[0]] + segs[1..];
    assert |JoinPath(segs)| >= 2;
  }

  /** The root location shows no trail: there is neither a home crumb nor a segment. */
  lemma RootShowsNothing(home: Crumb, routes: map<string, RouteInfo>)
    ensures Trail("/", home, routes) == []
    ensures !Visible("/", Trail("/", home, routes))
  {
    RootHasNoSegments();
  }

  /** The trail of a one-segment location that is a known route: the home crumb, then the route's crumb marked last. */
  lemma SingleRouteTrail(segment: string, home: Crumb, routes: map<string, RouteInfo>)
    requires segment != "" && '/' !in segment && "/" + segment in routes
    ensures var info := routes["/" + segment];
      Trail("/" + segment, home, routes) == [home, Crumb(info.caption, "/" + segment, info.icon, true)]
  {
    var segs := [segment];
    assert JoinPath(segs) == "/" + segment by {
      assert segs[..0] == [];
    }
    TrailOfJoin(segs, home, routes);
    BuildStep(segs, routes, 0);
    assert segs[..1] == segs;
  }

  /** A single known route other than the login page shows the home crumb and the route's crumb, so the trail is visible. */
  lemma OneRouteIsVisible(segment: string, home: Crumb, routes: map<string, RouteInfo>)
    requires segment != "" && '/' !in segment
    requires "/" + segment in routes && "/" + segment != "/login-authentication"
    ensures |Trail("/" + segment, home, routes)| == 2
    ensures Visible("/" + segment, Trail("/" + segment, home, routes))
  {
    SingleRouteTrail(segment, home, routes);
  }

  /** The login page never shows a trail, whatever it holds. */
  lemma LoginShowsNothing(crumbs: seq<Crumb>)
    ensures !Visible("/login-authentication", crumbs)
  {
  }

  /**
    The home crumb disagrees with the sidebar's dashboard for the role
    spellings the pages pass: the reports page passes "HR", for which the
    sidebar opens the HR dashboard but the home crumb the employee
    dashboard; "hr" is the other way round.
  */
  lemma HomeDisagreesWithSidebar()
    ensures HomePath("HR") == "/employee-dashboard" && Sidebar.DashboardPath("HR") == "/hr-admin-dashboard"
    ensures HomePath("hr") == "/hr-admin-dashboard" && Sidebar.DashboardPath("hr") == "/employee-dashboard"
  {
  }

  /** The home crumb's target as evidently intended: the administrator and HR roles in any case. */
  function HomePathFixed(role: string): (path: string)
    ensures path == "/hr-admin-dashboard" <==> Lower(role) == "admin" || Lower(role) == "hr"
    ensures path == "/employee-dashboard" <==> !(Lower(role) == "admin" || Lower(role) == "hr")
  {
    if Lower(role) == "admin" || Lower(role) == "hr" then "/hr-admin-dashboard" else "/employee-dashboard"
  }

  /**
    With both fixes the home crumb and the sidebar's dashboard item lead
    to the same page for every role, and for the spellings the home crumb
    already accepted nothing changes.
  */
  lemma HomeAgreesWithSidebarFixed(role: string)
    ensures HomePathFixed(role) == Sidebar.DashboardPathFixed(role)
    ensures role in {"admin", "hr", "employee"} ==> HomePathFixed(role) == HomePath(role)
  {
    Sidebar.LowerOfRoles();
  }

  /** The trail with the fixed home crumb. */
  function BreadcrumbsOfFixed(pathname: string, role: string, t: BreadcrumbLabels): seq<Crumb>
  {
    Trail(pathname, Crumb(t.dashboard, HomePathFixed(role), "LayoutDashboard", false), RouteMap(t))
  }

  /** The reports page passes the role "HR": as written its home crumb leads to the employee dashboard. */
  lemma ReportsPageHomeAsWritten(t: BreadcrumbLabels)
    ensures var crumbs := BreadcrumbsOf("/attendance-reports", "HR", t);
      |crumbs| == 2 && crumbs[0].path == "/employee-dashboard"
      && crumbs[1] == Crumb(t.attendanceReports, "/attendance-reports", "BarChart3", true)
  {
    ReportsRoute(t);
    ReportsTrail(Crumb(t.dashboard, HomePath("HR"), "LayoutDashboard", false), RouteMap(t));
  }

  /** With the fix, the reports page's home crumb leads to the HR dashboard, as the sidebar does. */
  lemma ReportsPageHomeFixed(t: BreadcrumbLabels)
    ensures var crumbs := BreadcrumbsOfFixed("/attendance-reports", "HR", t);
      |crumbs| == 2 && crumbs[0].path == "/hr-admin-dashboard" == Sidebar.DashboardPath("HR")
      && crumbs[1] == Crumb(t.attendanceReports, "/attendance-reports", "BarChart3", true)
  {
    var home := Crumb(t.dashboard, HomePathFixed("HR"), "LayoutDashboard", false);
    var routes := RouteMap(t);
    ReportsRoute(t);
    ReportsTrail(home, routes);
    var crumbs := BreadcrumbsOfFixed("/attendance-reports", "HR", t);
    assert crumbs == [home, Crumb(t.attendanceReports, "/attendance-reports", "BarChart3", true)];
    HrHomeFixed();
    assert Sidebar.DashboardPath("HR") == "/hr-admin-dashboard";
  }

  /** With the fix, the role "HR" is given the HR dashboard. */
  lemma HrHomeFixed()
    ensures HomePathFixed("HR") == "/hr-admin-dashboard"
  {
    Sidebar.LowerOfRoles();
  }

  /** The reports route's entry in the route map. */
  lemma ReportsRoute(t: BreadcrumbLabels)
    ensures "/attendance-reports" in RouteMap(t)
    ensures RouteMap(t)["/attendance-reports"] == RouteInfo(t.attendanceReports, "BarChart3")
  {
  }

  /** The trail of the reports page for any home crumb and any route map that knows the page. */
  lemma ReportsTrail(home: Crumb, routes: map<string, RouteInfo>)
    requires "/attendance-reports" in routes
    ensures var info := routes["/attendance-reports"];
      Trail("/attendance-reports", home, routes) == [home, Crumb(info.caption, "/attendance-reports", info.icon, true)]
  {
    var segment := "attendance-reports";
    assert "/" + segment == "/attendance-reports";
    SingleRouteTrail(segment, home, routes);
  }


}
