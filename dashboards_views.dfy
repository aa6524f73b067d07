// The dashboard views: the redirect by user type, the access gates of the
// student and admin dashboards, the display-name fallback chain, and the
// greeting flags the dashboards keep in the session.

module DashboardsViews {
  import opened Values
  import opened Text
  import opened Http
  import opened Sessions
  import opened AuthMiddleware

  const LoginRequiredText := "Please login to access the dashboard."
  const AdminOnlyText := "You do not have access to the admin dashboard."
  const StudentFallbackName := "Wildcat"
  const AdminFallbackName := "Admin"

  /** The figures admin_dashboard shows; they are constants in the source. */
  const DashboardStats := AdminStats(250, 120, 85, 150)

  /** `getattr(request.user, 'user_type', 'student')` */
  function UserType(u: Principal): Json {
    if u.userType.Some? then u.userType.value else JStr("student")
  }

  predicate IsAdmin(u: Principal) {
    UserType(u) == JStr("admin")
  }

  /** `getattr(user, name, None)` */
  function Attr(a: Option<Json>): Json {
    if a.Some? then a.value else JNull
  }

  function LoginRequired(): Reply {
    Reply(Redirect(Login), ErrorMessage(LoginRequiredText))
  }

  /** `dashboard_redirect`: anonymous users to login, admins to their dashboard, every other type to the student one. */
  function DashboardRedirect(u: Principal): (r: Reply)
    ensures !u.authenticated ==> r == LoginRequired()
    ensures u.authenticated && IsAdmin(u) ==> r == RedirectTo(AdminDashboard)
    ensures u.authenticated && !IsAdmin(u) ==> r == RedirectTo(StudentDashboard)
    ensures u.authenticated && u.userType.None? ==> r == RedirectTo(StudentDashboard)
  {
    if !u.authenticated then LoginRequired()
    else if IsAdmin(u) then RedirectTo(AdminDashboard)
    else RedirectTo(StudentDashboard)
  }

  /** The reply with which student_dashboard turns a user away, or None to let them in. */
  function StudentGate(u: Principal): (g: Option<Reply>)
    ensures g.None? <==> u.authenticated && !IsAdmin(u)
    ensures !u.authenticated ==> g == Some(LoginRequired())
    ensures u.authenticated && IsAdmin(u) ==> g == Some(RedirectTo(AdminDashboard))
  {
    if !u.authenticated then Some(LoginRequired())
    else if IsAdmin(u) then Some(RedirectTo(AdminDashboard))
    else None
  }

  /** The reply with which admin_dashboard turns a user away, or None to let them in. */
  function AdminGate(u: Principal): (g: Option<Reply>)
    ensures g.None? <==> u.authenticated && IsAdmin(u)
    ensures !u.authenticated ==> g == Some(LoginRequired())
    ensures u.authenticated && !IsAdmin(u) ==> g == Some(Reply(Redirect(StudentDashboard), [Message(Warning, AdminOnlyText)]))
    // a missing user_type reads as 'student', so such a user is never let in
    ensures u.userType.None? ==> g.Some?
  {
    if !u.authenticated then Some(LoginRequired())
    else if !IsAdmin(u) then Some(Reply(Redirect(StudentDashboard), [Message(Warning, AdminOnlyText)]))
    else None
  }

  /**
   * The three views agree: an anonymous user is sent to login by all of
   * them, and an authenticated user is admitted by exactly one dashboard,
   * the one dashboard_redirect points to.
   */
  lemma GatesAgreeWithRedirect(u: Principal)
    ensures !u.authenticated ==>
      StudentGate(u) == Some(LoginRequired()) && AdminGate(u) == Some(LoginRequired()) && DashboardRedirect(u) == LoginRequired()
    ensures u.authenticated ==> (StudentGate(u).None? <==> AdminGate(u).Some?)
    ensures u.authenticated && StudentGate(u).None? ==> DashboardRedirect(u) == RedirectTo(StudentDashboard)
    ensures u.authenticated && AdminGate(u).None? ==> DashboardRedirect(u) == RedirectTo(AdminDashboard)
  {
  }

  /**
   * `getattr(user, 'user_metadata', {}) or {}` as a dictionary: None when the
   * user has no such attribute, Err when the value is truthy but not a
   * dictionary (its `.get` raises AttributeError).
   */
  function Metadata(u: Principal): Result<Option<map<string, Json>>, string> {
    if u.userMetadata.None? then Ok(None)
    else
      var meta := Or(u.userMetadata.value, EmptyDict);
      if meta.JObj? then Ok(Some(meta.fields)) else Err("AttributeError")
  }

  /** The name the views compute from `user_metadata` (None when it is absent). */
  function MetadataName(u: Principal): Result<Json, string> {
    match Metadata(u)
    case Err(e) => Err(e)
    case Ok(None) => Ok(JNull)
    case Ok(Some(m)) =>
      Ok(Or(Or(Or(Get(m, "full_name", JNull), Get(m, "name", JNull)), Get(m, "first_name", JNull)), Get(m, "username", JNull)))
  }

  /** `name or getattr(user, 'username', None) or getattr(user, 'email', None) or fallback` */
  function RawName(u: Principal, fallback: string): Result<Json, string> {
    match MetadataName(u)
    case Err(e) => Err(e)
    case Ok(name) => Ok(Or(Or(Or(name, Attr(u.username)), Attr(u.email)), JStr(fallback)))
  }

  /**
   * `raw_name.split()[0] if isinstance(raw_name, str) else fallback`; Err
   * names the exception raised for a blank string or a non-dictionary
   * `user_metadata`.
   */
  function DisplayName(u: Principal, fallback: string): (r: Result<string, string>)
    ensures r.Ok? ==> r.value == fallback || (r.value != [] && forall i :: 0 <= i < |r.value| ==> !IsSpace(r.value[i]))
  {
    match RawName(u, fallback)
    case Err(e) => Err(e)
    case Ok(raw) =>
      if raw.JStr? then
        match FirstWord(raw.s)
        case None => Err("IndexError")
        case Some(w) => Ok(w)
      else Ok(fallback)
  }

  /** The candidates of the fallback chain, in the order the views try them. */
  function NameCandidates(u: Principal, m: map<string, Json>): seq<Json> {
    [Get(m, "full_name", JNull), Get(m, "name", JNull), Get(m, "first_name", JNull), Get(m, "username", JNull),
     Attr(u.username), Attr(u.email)]
  }

  /** The metadata the chain reads: the user's dictionary, or {} when it has none. */
  function MetadataOrEmpty(u: Principal): map<string, Json>
    requires Metadata(u).Ok?
  {
    if Metadata(u).value.Some? then Metadata(u).value.value else map[]
  }

  /**
   * The display name is the first word of the first truthy candidate among
   * metadata full_name, name, first_name, username, then user.username and
   * user.email; a truthy non-string candidate gives the fallback, and with
   * no truthy candidate the fallback itself is split.
   */
  lemma DisplayNameChain(u: Principal, fallback: string)
    requires Metadata(u).Ok?
    ensures
      var first := FirstTruthy(NameCandidates(u, MetadataOrEmpty(u)));
      DisplayName(u, fallback) ==
        if first.None? then (if FirstWord(fallback).Some? then Ok(FirstWord(fallback).value) else Err("IndexError"))
        else if !first.value.JStr? then Ok(fallback)
        else if FirstWord(first.value.s).Some? then Ok(FirstWord(first.value.s).value)
        else Err("IndexError")
  {
    RawNameChain(u, fallback);
  }

  /** The `or` chain of the views picks the first truthy candidate, else the fallback. */
  lemma RawNameChain(u: Principal, fallback: string)
    requires Metadata(u).Ok?
    ensures
      var first := FirstTruthy(NameCandidates(u, MetadataOrEmpty(u)));
      RawName(u, fallback) == Ok(if first.Some? then first.value else JStr(fallback))
  {
    var c := NameCandidates(u, MetadataOrEmpty(u));
    assert MetadataName(u) == Ok(Or(Or(Or(c[0], c[1]), c[2]), c[3]));
    assert RawName(u, fallback) == Ok(Or(Or(Or(Or(Or(Or(c[0], c[1]), c[2]), c[3]), c[4]), c[5]), JStr(fallback)));
    assert c == [c[0]] + c[1..] && c[1..] == [c[1]] + c[2..] && c[2..] == [c[2]] + c[3..];
    assert c[3..] == [c[3]] + c[4..] && c[4..] == [c[4]] + c[5..] && c[5..] == [c[5]] + [];
    FirstTruthyCons(c[5], []);
    FirstTruthyCons(c[4], c[5..]);
    FirstTruthyCons(c[3], c[4..]);
    FirstTruthyCons(c[2], c[3..]);
    FirstTruthyCons(c[1], c[2..]);
    FirstTruthyCons(c[0], c[1..]);
  }

  lemma FirstTruthyCons(x: Json, rest: seq<Json>)
    ensures FirstTruthy([x] + rest) == if Truthy(x) then Some(x) else FirstTruthy(rest)
  {
    assert ([x] + rest)[1..] == rest;
  }

  /** The fallback names are single words, so an empty chain shows them unchanged. */
  lemma FallbackNamesAreWords()
    ensures FirstWord(StudentFallbackName) == Some(StudentFallbackName)
    ensures FirstWord(AdminFallbackName) == Some(AdminFallbackName)
  {
    assert LeadingSpaces(StudentFallbackName) == 0;
    assert LeadingSpaces(AdminFallbackName) == 0;
    assert StudentFallbackName[0..] == StudentFallbackName;
    assert AdminFallbackName[0..] == AdminFallbackName;
    WordOfWord(StudentFallbackName);
    WordOfWord(AdminFallbackName);
  }

  lemma {:induction false} WordOfWord(s: string)
    requires forall i :: 0 <= i < |s| ==> !IsSpace(s[i])
    ensures Word(s) == s
    decreases |s|
  {
    if s != [] {
      WordOfWord(s[1..]);
    }
  }

  /**
   * For a SupabaseUser the chain always finds a truthy candidate: without an
   * e-mail its username is 'user', and with one the e-mail itself is truthy.
   */
  lemma SupabaseUserChainNeverEmpty(userData: Json)
    requires NewSupabaseUser(userData).Ok?
    ensures Metadata(AsPrincipal(NewSupabaseUser(userData).value)).Ok?
    ensures
      var p := AsPrincipal(NewSupabaseUser(userData).value);
      FirstTruthy(NameCandidates(p, MetadataOrEmpty(p))).Some?
  {
    var su := NewSupabaseUser(userData).value;
    var p := AsPrincipal(su);
    var c := NameCandidates(p, MetadataOrEmpty(p));
    if !Truthy(su.email) {
      assert Truthy(c[4]);
    } else {
      assert Truthy(c[5]);
    }
  }

  /**
   * A SupabaseUser whose metadata full_name is a non-empty run of whitespace:
   * the name is truthy, so it is chosen, and its `split()[0]` raises
   * IndexError, on either dashboard.
   */
  lemma BlankFullNameRaises(su: SupabaseUser, fallback: string)
    requires "full_name" in su.userMetadata
    requires su.userMetadata["full_name"].JStr? && su.userMetadata["full_name"].s != ""
    requires AllSpace(su.userMetadata["full_name"].s)
    ensures DisplayName(AsPrincipal(su), fallback) == Err("IndexError")
  {
    var p := AsPrincipal(su);
    assert Metadata(p) == Ok(Some(su.userMetadata));
    DisplayNameChain(p, fallback);
    assert NameCandidates(p, su.userMetadata)[0] == su.userMetadata["full_name"];
    FirstTruthyCons(su.userMetadata["full_name"], NameCandidates(p, su.userMetadata)[1..]);
    assert NameCandidates(p, su.userMetadata) == [su.userMetadata["full_name"]] + NameCandidates(p, su.userMetadata)[1..];
  }

  /** The greeting for a dashboard whose flag is `flag`. */
  function Greeting(flag: Json): string {
    if Truthy(flag) then "Welcome back" else "Welcome"
  }

  /**
   * `student_dashboard`: gatekeeping, then the display name with fallback
   * 'Wildcat', then the greeting; the student flag is set only once the
   * page is about to be rendered.
   */
  method StudentDashboardView(session: Session, user: Principal) returns (reply: Reply)
    modifies session
    ensures StudentGate(user).Some? ==> reply == StudentGate(user).value && session.data == old(session.data)
    ensures StudentGate(user).None? && DisplayName(user, StudentFallbackName).Err? ==>
      reply == Reply(Uncaught(DisplayName(user, StudentFallbackName).error), []) && session.data == old(session.data)
    ensures StudentGate(user).None? && DisplayName(user, StudentFallbackName).Ok? ==>
      && reply == RenderWith(StudentDashboardPage(DisplayName(user, StudentFallbackName).value,
                                                  Greeting(old(session.Get(StudentGreetedKey)))), [])
      && session.data == Transition(old(session.data), Greeted(false))
  {
    var gate := StudentGate(user);
    if gate.Some? {
      reply := gate.value;
      return;
    }
    var name := DisplayName(user, StudentFallbackName);
    if name.Err? {
      reply := Reply(Uncaught(name.error), []);
      return;
    }
    var greeting := Greeting(session.Get(StudentGreetedKey));
    session.Set(StudentGreetedKey, JBool(true));
    reply := RenderWith(StudentDashboardPage(name.value, greeting), []);
  }

  /**
   * `admin_dashboard`: gatekeeping, then the display name with fallback
   * 'Admin', then the greeting under its own flag, and the fixed stats.
   */
  method AdminDashboardView(session: Session, user: Principal) returns (reply: Reply)
    modifies session
    ensures AdminGate(user).Some? ==> reply == AdminGate(user).value && session.data == old(session.data)
    ensures AdminGate(user).None? && DisplayName(user, AdminFallbackName).Err? ==>
      reply == Reply(Uncaught(DisplayName(user, AdminFallbackName).error), []) && session.data == old(session.data)
    ensures AdminGate(user).None? && DisplayName(user, AdminFallbackName).Ok? ==>
      && reply == RenderWith(AdminDashboardPage(DisplayName(user, AdminFallbackName).value,
                                                Greeting(old(session.Get(AdminGreetedKey))), DashboardStats), [])
      && session.data == Transition(old(session.data), Greeted(true))
  {
    var gate := AdminGate(user);
    if gate.Some? {
      reply := gate.value;
      return;
    }
    var name := DisplayName(user, AdminFallbackName);
    if name.Err? {
      reply := Reply(Uncaught(name.error), []);
      return;
    }
    var greeting := Greeting(session.Get(AdminGreetedKey));
    session.Set(AdminGreetedKey, JBool(true));
    reply := RenderWith(AdminDashboardPage(name.value, greeting, DashboardStats), []);
  }
}
