/**
  The login page: on mount it redirects an authenticated user to the
  dashboard of their role and restores the saved language; the language
  toggle stores the chosen code.
*/
module LoginPage {
  import opened Common
  import LoginForm

  /** The dashboard the mount effect's `switch` chooses for a role. */
  function DashboardFor(role: string): (path: string)
    ensures path == "/hr-admin-dashboard" <==> role == "hr" || role == "admin"
    ensures path == "/employee-dashboard" <==> !(role == "hr" || role == "admin")
  {
    match role
    case "employee" => "/employee-dashboard"
    case "hr" => "/hr-admin-dashboard"
    case "admin" => "/hr-admin-dashboard"
    case _ => "/employee-dashboard"
  }

  /** The redirect on mount, from the stored `isAuthenticated` and `userRole` (absent keys are `None`). */
  function RedirectTarget(isAuthenticated: Option<string>, userRole: Option<string>): (r: Option<string>)
    ensures r.Some? <==> isAuthenticated == Some("true") && userRole.Some? && userRole.value != ""
    ensures r.Some? ==> r.value == DashboardFor(userRole.value)
  {
    if isAuthenticated == Some("true") && userRole.Some? && userRole.value != "" then
      Some(DashboardFor(userRole.value))
    else None
  }

  function Lookup(store: map<string, string>, key: string): (r: Option<string>)
    ensures r.Some? <==> key in store
    ensures r.Some? ==> r.value == store[key]
  {
    if key in store then Some(store[key]) else None
  }

  /** The saved language replaces the current one only when it is present and non-empty. */
  function RestoredLanguage(current: string, saved: Option<string>): (lang: string)
    ensures saved.Some? && saved.value != "" ==> lang == saved.value
    ensures !(saved.Some? && saved.value != "") ==> lang == current
  {
    if saved.Some? && saved.value != "" then saved.value else current
  }

  /** The page's state with local storage and the last navigation. */
  class LoginPageState {
    var currentLanguage: string
    var store: map<string, string>
    var navigatedTo: Option<string>

    constructor (initialStore: map<string, string>)
      ensures currentLanguage == "fr" && store == initialStore && navigatedTo == None
    {
      currentLanguage := "fr";
      store := initialStore;
      navigatedTo := None;
    }

    /** The mount effect: redirect if authenticated, then restore the language. */
    method Mount()
      modifies this`currentLanguage, this`navigatedTo
      ensures var t := RedirectTarget(Lookup(store, "isAuthenticated"), Lookup(store, "userRole"));
        navigatedTo == if t.Some? then t else old(navigatedTo)
      ensures currentLanguage == RestoredLanguage(old(currentLanguage), Lookup(store, "currentLanguage"))
    {
      var target := RedirectTarget(Lookup(store, "isAuthenticated"), Lookup(store, "userRole"));
      if target.Some? {
        navigatedTo := target;
      }
      currentLanguage := RestoredLanguage(currentLanguage, Lookup(store, "currentLanguage"));
    }

    /** `handleLanguageChange`: the state and the stored `currentLanguage` take the same code. */
    method ChangeLanguage(code: string)
      modifies this`currentLanguage, this`store
      ensures currentLanguage == code && store == old(store)["currentLanguage" := code]
    {
      currentLanguage := code;
      store := store["currentLanguage" := code];
    }
  }

  /**
    After a successful login, coming back to the login page redirects to
    the role's dashboard (the form itself always opened the employee
    dashboard) and restores the language the form stored.
  */
  lemma LoginThenRevisit(store: map<string, string>, c: LoginForm.Credentials, email: string, language: string)
    requires c.role != "" && language != ""
    ensures var s := LoginForm.SessionWrites(store, c, email, language);
      RedirectTarget(Lookup(s, "isAuthenticated"), Lookup(s, "userRole")) == Some(DashboardFor(c.role))
      && RestoredLanguage("fr", Lookup(s, "currentLanguage")) == language
  {
    LoginForm.SessionWritesKeys(store, c, email, language);
  }

  /** An HR user who logs in lands on the employee dashboard, but is sent to the HR dashboard on revisit. */
  lemma HrLoginLandingDiffers(store: map<string, string>, c: LoginForm.Credentials, email: string, language: string)
    requires c.role == "hr" && language != ""
    ensures var s := LoginForm.SessionWrites(store, c, email, language);
      RedirectTarget(Lookup(s, "isAuthenticated"), Lookup(s, "userRole")) != Some("/employee-dashboard")
  {
    LoginForm.SessionWritesKeys(store, c, email, language);
  }
}
