/**
  The login form: field validation (with the e-mail pattern
  `^[^\s@]+@[^\s@]+\.[^\s@]+$`), the lock after three failed attempts,
  and the session keys written to local storage on success.
*/
module LoginForm {
  import opened Common

  // ------------------------------------------------------------ e-mail shape

  /** A character the pattern's `[^\s@]` accepts. */
  predicate PlainChar(c: char)
  {
    !IsSpace(c) && c != '@'
  }

  predicate AllPlain(s: string)
  {
    forall i :: 0 <= i < |s| ==> PlainChar(s[i])
  }

  /**
    The regular expression read as the pattern it is: a non-empty run of
    plain characters, '@', a non-empty run, '.', and a non-empty run.
  */
  predicate MatchesEmailPattern(s: string)
  {
    exists a, b :: 0 < a && a + 1 < b < |s| - 1 && s[a] == '@' && s[b] == '.'
      && AllPlain(s[..a]) && AllPlain(s[a + 1..b]) && AllPlain(s[b + 1..])
  }

  /** The index of the first '@', or |s| when there is none. */
  function AtIndex(s: string): (k: nat)
    ensures k <= |s|
    ensures k < |s| ==> s[k] == '@'
    ensures forall j :: 0 <= j < k ==> s[j] != '@'
  {
    if s == [] then 0 else if s[0] == '@' then 0 else 1 + AtIndex(s[1..])
  }

  /** A '.' with at least one character on each side. */
  predicate HasInnerDot(d: string)
  {
    exists k :: 0 < k < |d| - 1 && d[k] == '.'
  }

  /**
    The same check said directly: no white space, exactly one '@' with
    something before it, and an inner '.' after it.
  */
  predicate EmailShape(s: string)
  {
    var a := AtIndex(s);
    (forall i :: 0 <= i < |s| ==> !IsSpace(s[i]))
    && 0 < a < |s|
    && (forall j :: a < j < |s| ==> s[j] != '@')
    && HasInnerDot(s[a + 1..])
  }

  lemma AllPlainSlice(s: string, lo: int, hi: int)
    requires 0 <= lo <= hi <= |s|
    requires forall i :: lo <= i < hi ==> PlainChar(s[i])
    ensures AllPlain(s[lo..hi])
  {
    forall i | 0 <= i < hi - lo ensures PlainChar(s[lo..hi][i]) {
      assert s[lo..hi][i] == s[lo + i];
    }
  }

  lemma PatternGivesShape(s: string)
    requires MatchesEmailPattern(s)
    ensures EmailShape(s)
  {
    var a, b :| 0 < a && a + 1 < b < |s| - 1 && s[a] == '@' && s[b] == '.'
      && AllPlain(s[..a]) && AllPlain(s[a + 1..b]) && AllPlain(s[b + 1..]);
    PlainOutsideAt(s, a, b);
    AtIndexIs(s, a);
    assert s[a + 1..][b - a - 1] == '.';
  }

  /** With the pattern's three runs, every character but the '@' is plain. */
  lemma PlainOutsideAt(s: string, a: nat, b: nat)
    requires a < b < |s|
    requires AllPlain(s[..a]) && AllPlain(s[a + 1..b]) && AllPlain(s[b + 1..]) && s[b] == '.'
    ensures forall i :: 0 <= i < |s| && i != a ==> PlainChar(s[i])
  {
    forall i | 0 <= i < |s| && i != a ensures PlainChar(s[i]) {
      if i < a {
        assert s[i] == s[..a][i];
      } else if i < b {
        assert s[i] == s[a + 1..b][i - a - 1];
      } else if b < i {
        assert s[i] == s[b + 1..][i - b - 1];
      }
    }
  }

  /** An '@' preceded only by plain characters is the first one. */
  lemma AtIndexIs(s: string, a: nat)
    requires a < |s| && s[a] == '@'
    requires forall i :: 0 <= i < a ==> PlainChar(s[i])
    ensures AtIndex(s) == a
  {
  }

  lemma ShapeGivesPattern(s: string)
    requires EmailShape(s)
    ensures MatchesEmailPattern(s)
  {
    var a := AtIndex(s);
    var d := s[a + 1..];
    var k :| 0 < k < |d| - 1 && d[k] == '.';
    var b := a + 1 + k;
    assert s[b] == '.';
    AllPlainSlice(s, 0, a);
    AllPlainSlice(s, a + 1, b);
    AllPlainSlice(s, b + 1, |s|);
    assert s[b + 1..|s|] == s[b + 1..];
  }

  /** The pattern accepts exactly the strings of that shape. */
  lemma EmailPatternIffShape(s: string)
    ensures MatchesEmailPattern(s) <==> EmailShape(s)
  {
    if MatchesEmailPattern(s) {
      PatternGivesShape(s);
    }
    if EmailShape(s) {
      ShapeGivesPattern(s);
    }
  }

  // ------------------------------------------------------------ validation

  /** The messages the form shows; `NoMessage` is the empty string a field's error is cleared to. */
  datatype Message = RequiredField | InvalidEmail | InvalidCredentials | AccountLocked | NoMessage

  datatype ErrorKey = EmailKey | PasswordKey | RoleKey | GeneralKey

  datatype Field = EmailField | PasswordField | RoleField

  function KeyOf(f: Field): ErrorKey
  {
    match f
    case EmailField => EmailKey
    case PasswordField => PasswordKey
    case RoleField => RoleKey
  }

  /** The `newErrors` object that `validateForm` builds field by field. */
  function FormErrors(email: string, password: string): (errs: map<ErrorKey, Message>)
    ensures EmailKey in errs <==> !MatchesEmailPattern(email)
    ensures email == "" ==> errs[EmailKey] == RequiredField
    ensures email != "" && !MatchesEmailPattern(email) ==> errs[EmailKey] == InvalidEmail
    ensures PasswordKey in errs <==> password == ""
    ensures PasswordKey in errs ==> errs[PasswordKey] == RequiredField
    ensures errs.Keys <= {EmailKey, PasswordKey}
  {
    var e: map<ErrorKey, Message> :=
      if email == "" then map[EmailKey := RequiredField]
      else if !MatchesEmailPattern(email) then map[EmailKey := InvalidEmail]
      else map[];
    if password == "" then e[PasswordKey := RequiredField] else e
  }

  /** `validateForm`'s result: no error was recorded. */
  predicate FormValid(email: string, password: string)
  {
    |FormErrors(email, password)| == 0
  }

  lemma FormValidIff(email: string, password: string)
    ensures FormValid(email, password) <==> MatchesEmailPattern(email) && password != ""
  {
    var errs := FormErrors(email, password);
    if !MatchesEmailPattern(email) {
      assert EmailKey in errs;
    } else if password == "" {
      assert PasswordKey in errs;
    } else {
      assert errs == map[];
    }
  }

  /** An empty e-mail never matches the pattern, so it is reported as missing. */
  lemma EmptyEmailIsRequired()
    ensures !MatchesEmailPattern("")
  {
  }

  // ------------------------------------------------------------ submission

  /** What the login service returns: a credential record, or `undefined` when it swallowed an error. */
  datatype Credentials = Credentials(email: string, password: string, role: string, id: string, fullName: string)

  datatype ServiceOutcome = Returned(creds: Option<Credentials>) | Threw

  /** The credentials match the submitted e-mail and password. */
  predicate Matches(o: Option<Credentials>, email: string, password: string)
  {
    o.Some? && o.value.email == email && o.value.password == password
  }

  /** The session keys written on a successful login. */
  function SessionWrites(store: map<string, string>, c: Credentials, email: string, language: string): map<string, string>
  {
    store["userRole" := c.role]["id" := c.id]["userEmail" := email]["fullName" := c.fullName]
      ["currentLanguage" := language]["isAuthenticated" := "true"]
  }

  /** The six session keys hold the login's values; every other stored key keeps its value. */
  lemma SessionWritesKeys(store: map<string, string>, c: Credentials, email: string, language: string)
    ensures var r := SessionWrites(store, c, email, language);
      r.Keys == store.Keys + {"userRole", "id", "userEmail", "fullName", "currentLanguage", "isAuthenticated"}
      && r["isAuthenticated"] == "true" && r["userRole"] == c.role && r["userEmail"] == email
      && r["id"] == c.id && r["fullName"] == c.fullName && r["currentLanguage"] == language
      && forall k :: k in store && k !in {"userRole", "id", "userEmail", "fullName", "currentLanguage", "isAuthenticated"} ==> r[k] == store[k]
  {
  }

  const MaxAttempts := 3

  /** The form's state; `store` is local storage and `serviceCalls` counts calls of the login service. */
  class LoginFormState {
    var email: string
    var password: string
    var role: string
    var errors: map<ErrorKey, Message>
    var isLoading: bool
    var failedAttempts: nat
    var store: map<string, string>
    var navigatedTo: Option<string>
    var serviceCalls: nat

    constructor (initialStore: map<string, string>)
      ensures email == "" && password == "" && role == "" && errors == map[]
      ensures !isLoading && failedAttempts == 0 && store == initialStore
      ensures navigatedTo == None && serviceCalls == 0
    {
      email, password, role := "", "", "";
      errors := map[];
      isLoading := false;
      failedAttempts := 0;
      store := initialStore;
      navigatedTo := None;
      serviceCalls := 0;
    }

    /** The submit button is disabled while loading and once three attempts have failed. */
    function SubmitDisabled(): (disabled: bool)
      reads this
      ensures !isLoading ==> (disabled <==> failedAttempts >= MaxAttempts)
    {
      isLoading || failedAttempts >= MaxAttempts
    }

    /** `handleInputChange`: the field takes the value; its error, if set, is cleared and no other. */
    method InputChange(f: Field, v: string)
      modifies this`email, this`password, this`role, this`errors
      ensures f == EmailField ==> email == v && password == old(password) && role == old(role)
      ensures f == PasswordField ==> password == v && email == old(email) && role == old(role)
      ensures f == RoleField ==> role == v && email == old(email) && password == old(password)
      ensures KeyOf(f) in old(errors) && old(errors)[KeyOf(f)] != NoMessage ==> errors == old(errors)[KeyOf(f) := NoMessage]
      ensures !(KeyOf(f) in old(errors) && old(errors)[KeyOf(f)] != NoMessage) ==> errors == old(errors)
    {
      match f {
        case EmailField => email := v;
        case PasswordField => password := v;
        case RoleField => role := v;
      }
      var k := KeyOf(f);
      if k in errors && errors[k] != NoMessage {
        errors := errors[k := NoMessage];
      }
    }

    /** `validateForm`: the errors are replaced by the new ones. */
    method ValidateForm() returns (valid: bool)
      modifies this`errors
      ensures errors == FormErrors(email, password)
      ensures valid <==> MatchesEmailPattern(email) && password != ""
    {
      errors := FormErrors(email, password);
      FormValidIff(email, password);
      valid := |errors| == 0;
    }

    /**
      The part of `handleSubmit` past validation: loading on, errors
      cleared, one service call, then the outcome; loading ends off.
    */
    method Attempt(outcome: ServiceOutcome, language: string)
      requires !isLoading
      modifies this`isLoading, this`errors, this`serviceCalls, this`store, this`navigatedTo, this`failedAttempts
      ensures !isLoading && serviceCalls == old(serviceCalls) + 1
      ensures outcome.Returned? && Matches(outcome.creds, email, password) ==>
        store == SessionWrites(old(store), outcome.creds.value, email, language)
        && navigatedTo == Some("/employee-dashboard") && failedAttempts == old(failedAttempts) && errors == map[]
      ensures outcome.Returned? && !Matches(outcome.creds, email, password) ==>
        failedAttempts == old(failedAttempts) + 1 && store == old(store) && navigatedTo == old(navigatedTo)
        && errors == map[GeneralKey := if old(failedAttempts) >= 2 then AccountLocked else InvalidCredentials]
      ensures outcome.Threw? ==>
        errors == map[GeneralKey := InvalidCredentials] && failedAttempts == old(failedAttempts)
        && store == old(store) && navigatedTo == old(navigatedTo)
    {
      isLoading := true;
      errors := map[];
      serviceCalls := serviceCalls + 1;
      match outcome {
        case Threw =>
          errors := map[GeneralKey := InvalidCredentials];
        case Returned(creds) =>
          if Matches(creds, email, password) {
            LogIn(creds.value, language);
          } else {
            Reject();
          }
      }
      isLoading := false;
    }

    /** Accepted credentials: the session is written and the dashboard opens. */
    method LogIn(c: Credentials, language: string)
      modifies this`store, this`navigatedTo
      ensures store == SessionWrites(old(store), c, email, language)
      ensures navigatedTo == Some("/employee-dashboard")
    {
      store := SessionWrites(store, c, email, language);
      navigatedTo := Some("/employee-dashboard");
    }

    /** Rejected credentials: one more failed attempt, and the third already reports the lock. */
    method Reject()
      modifies this`failedAttempts, this`errors
      ensures failedAttempts == old(failedAttempts) + 1
      ensures errors == map[GeneralKey := if old(failedAttempts) >= 2 then AccountLocked else InvalidCredentials]
    {
      errors := map[GeneralKey := if failedAttempts >= 2 then AccountLocked else InvalidCredentials];
      failedAttempts := failedAttempts + 1;
    }

    /**
      `handleSubmit` with the service's outcome and the page language. A
      locked form only reports the lock; an invalid form only reports its
      field errors; otherwise the service is called once and the outcome
      decides between a login, a failed attempt and a service error.
    */
    method Submit(outcome: ServiceOutcome, language: string)
      requires !isLoading
      modifies this
      ensures !isLoading
      ensures email == old(email) && password == old(password) && role == old(role)
      ensures old(failedAttempts) >= MaxAttempts ==>
        errors == map[GeneralKey := AccountLocked] && serviceCalls == old(serviceCalls)
        && failedAttempts == old(failedAttempts) && store == old(store) && navigatedTo == old(navigatedTo)
      ensures old(failedAttempts) < MaxAttempts && !FormValid(email, password) ==>
        errors == FormErrors(email, password) && serviceCalls == old(serviceCalls)
        && failedAttempts == old(failedAttempts) && store == old(store) && navigatedTo == old(navigatedTo)
      ensures old(failedAttempts) < MaxAttempts && FormValid(email, password) ==> serviceCalls == old(serviceCalls) + 1
      ensures old(failedAttempts) < MaxAttempts && FormValid(email, password) && outcome.Returned?
              && Matches(outcome.creds, email, password) ==>
        store == SessionWrites(old(store), outcome.creds.value, email, language)
        && navigatedTo == Some("/employee-dashboard") && failedAttempts == old(failedAttempts) && errors == map[]
      ensures old(failedAttempts) < MaxAttempts && FormValid(email, password) && outcome.Returned?
              && !Matches(outcome.creds, email, password) ==>
        failedAttempts == old(failedAttempts) + 1 && store == old(store) && navigatedTo == old(navigatedTo)
        && errors == map[GeneralKey := if old(failedAttempts) >= 2 then AccountLocked else InvalidCredentials]
      ensures old(failedAttempts) < MaxAttempts && FormValid(email, password) && outcome.Threw? ==>
        errors == map[GeneralKey := InvalidCredentials] && failedAttempts == old(failedAttempts)
        && store == old(store) && navigatedTo == old(navigatedTo)
    {
      if failedAttempts >= MaxAttempts {
        errors := map[GeneralKey := AccountLocked];
        return;
      }
      var valid := ValidateForm();
      if !valid {
        FormValidIff(email, password);
        return;
      }
      FormValidIff(email, password);
      Attempt(outcome, language);
    }
  }

  /**
    Three rejected logins lock the form: the third already reports the
    lock, the button is then disabled, and a fourth submission makes no
    service call.
  */
  method ThreeFailuresLock(email: string, password: string) returns (calls: nat, lastError: Message, disabled: bool)
    requires MatchesEmailPattern(email) && password != ""
    ensures calls == 3 && lastError == AccountLocked && disabled
  {
    var form := new LoginFormState(map[]);
    form.InputChange(EmailField, email);
    form.InputChange(PasswordField, password);
    FormValidIff(email, password);
    form.Submit(Returned(None), "fr");
    form.Submit(Returned(None), "fr");
    form.Submit(Returned(None), "fr");
    assert form.errors[GeneralKey] == AccountLocked;
    calls := form.serviceCalls;
    form.Submit(Returned(None), "fr");
    lastError := form.errors[GeneralKey];
    disabled := form.SubmitDisabled();
  }
}
