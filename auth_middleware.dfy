// The Supabase authentication middleware: SupabaseUser, and
// `process_request`, which turns the access token held in the session into
// request.user. The answer of `GET /auth/v1/user` is an input, `UserFetch`.

module AuthMiddleware {
  import opened Values
  import opened Text
  import opened Sessions

  /** The fields SupabaseUser.__init__ sets; `is_authenticated` is always True. */
  datatype SupabaseUser = SupabaseUser(
    id: Json,
    email: Json,
    userMetadata: map<string, Json>,
    username: string,
    userType: Json)

  /**
   * `SupabaseUser(user_data)`. It raises AttributeError when `user_data` is
   * not a dictionary, when a truthy e-mail is not a string (no `split`), or
   * when `user_metadata` is present but not a dictionary (no `get`).
   */
  function NewSupabaseUser(userData: Json): (r: Result<SupabaseUser, string>)
    ensures r.Err? <==>
      || !userData.JObj?
      || (Truthy(Get(userData.fields, "email", JNull)) && !Get(userData.fields, "email", JNull).JStr?)
      || !Get(userData.fields, "user_metadata", EmptyDict).JObj?
    ensures r.Ok? ==>
      var d := userData.fields;
      var u := r.value;
      && u.id == Get(d, "id", JNull)
      && u.email == Get(d, "email", JNull)
      // user_metadata is kept as given, defaulting to {}; user_type defaults to 'student'
      && ("user_metadata" in d ==> u.userMetadata == d["user_metadata"].fields)
      && ("user_metadata" !in d ==> u.userMetadata == map[])
      && ("user_type" in u.userMetadata ==> u.userType == u.userMetadata["user_type"])
      && ("user_type" !in u.userMetadata ==> u.userType == JStr("student"))
      // username: the e-mail up to its first '@', or 'user' without an e-mail
      && (!Truthy(u.email) ==> u.username == "user")
      && (Truthy(u.email) ==>
            && u.username <= u.email.s
            && '@' !in u.username
            && (|u.username| < |u.email.s| ==> u.email.s[|u.username|] == '@'))
  {
    if !userData.JObj? then Err("AttributeError")
    else
      var d := userData.fields;
      var email := Get(d, "email", JNull);
      var meta := Get(d, "user_metadata", EmptyDict);
      if Truthy(email) && !email.JStr? then Err("AttributeError")
      else if !meta.JObj? then Err("AttributeError")
      else
        var username := if Truthy(email) then BeforeFirst(email.s, '@') else "user";
        Ok(SupabaseUser(Get(d, "id", JNull), email, meta.fields, username,
                        Get(meta.fields, "user_type", JStr("student"))))
  }

  /** An e-mail that starts with '@' gives the empty username. */
  lemma AtFirstEmailEmptyUsername(rest: string)
    ensures NewSupabaseUser(JObj(map["email" := JStr("@" + rest)])).Ok?
    ensures NewSupabaseUser(JObj(map["email" := JStr("@" + rest)])).value.username == ""
  {
    assert ("@" + rest)[0] == '@';
  }

  /**
   * `SupabaseUser.get_full_name`: the metadata's `full_name` whenever the key
   * is present (even when its value is None or empty), else the username.
   */
  function GetFullName(u: SupabaseUser): (r: Json)
    ensures "full_name" in u.userMetadata ==> r == u.userMetadata["full_name"]
    ensures "full_name" !in u.userMetadata ==> r == JStr(u.username)
  {
    Get(u.userMetadata, "full_name", JStr(u.username))
  }

  /**
   * request.user seen the way the views see it, through `getattr` and
   * `hasattr`: each optional field is None when the object lacks that
   * attribute.
   */
  datatype Principal = Principal(
    authenticated: bool,
    userType: Option<Json>,
    userMetadata: Option<Json>,
    rawUserMetaData: Option<Json>,
    username: Option<Json>,
    email: Option<Json>,
    profile: Option<Json>)

  /** Django's AnonymousUser: not authenticated, username ''. */
  const Anonymous := Principal(false, None, None, None, Some(JStr("")), None, None)

  /** A SupabaseUser as request.user; it has no `raw_user_meta_data` and no `profile`. */
  function AsPrincipal(u: SupabaseUser): (p: Principal)
    ensures p.authenticated
    ensures p.rawUserMetaData.None? && p.profile.None?
    // the attributes the views read are the user's own fields
    ensures p.userType == Some(u.userType) && p.userMetadata == Some(JObj(u.userMetadata))
    ensures p.username == Some(JStr(u.username)) && p.email == Some(u.email)
  {
    Principal(true, Some(u.userType), Some(JObj(u.userMetadata)), None, Some(JStr(u.username)), Some(u.email), None)
  }

  /** What `GET /auth/v1/user` did: answered with a status and a body (None when the body is not JSON), or raised. */
  datatype UserFetch = Answered(status: int, body: Option<Json>) | FetchRaised

  /** The middleware's verdict: the user to install and whether the stored token is dropped. */
  datatype AuthDecision = AuthDecision(user: Principal, dropToken: bool)

  /** The user built from a 200 answer, when the body is JSON that SupabaseUser accepts. */
  function Built(fetch: UserFetch): Option<SupabaseUser> {
    if fetch.Answered? && fetch.status == 200 && fetch.body.Some? && NewSupabaseUser(fetch.body.value).Ok?
    then Some(NewSupabaseUser(fetch.body.value).value)
    else None
  }

  /**
   * `process_request` as a decision over the stored token and the fetch
   * outcome. The request is authenticated exactly when a truthy token met a
   * 200 answer whose body builds a SupabaseUser; the token is dropped exactly
   * when a truthy token met a non-200 answer. A raised fetch (or a failure to
   * parse or build) leaves the token in place.
   */
  function Authenticate(token: Json, fetch: UserFetch): (d: AuthDecision)
    ensures d.user.authenticated <==> Truthy(token) && Built(fetch).Some?
    ensures d.user.authenticated ==> d.user == AsPrincipal(Built(fetch).value)
    ensures !d.user.authenticated ==> d.user == Anonymous
    ensures d.dropToken <==> Truthy(token) && fetch.Answered? && fetch.status != 200
  {
    if !Truthy(token) then AuthDecision(Anonymous, false)
    else match fetch
      case FetchRaised => AuthDecision(Anonymous, false)
      case Answered(status, body) =>
        if status == 200 then
          if body.None? then AuthDecision(Anonymous, false)
          else match NewSupabaseUser(body.value)
            case Ok(u) => AuthDecision(AsPrincipal(u), false)
            case Err(_) => AuthDecision(Anonymous, false)
        else AuthDecision(Anonymous, true)
  }

  /** The middleware never both authenticates a request and drops its token. */
  lemma AuthenticatedKeepsToken(token: Json, fetch: UserFetch)
    ensures Authenticate(token, fetch).user.authenticated ==> !Authenticate(token, fetch).dropToken
  {
  }

  /** `SupabaseAuthMiddleware.process_request`: sets request.user, and on a non-200 answer deletes the token. */
  method ProcessRequest(session: Session, fetch: UserFetch) returns (user: Principal)
    modifies session
    ensures user == Authenticate(old(session.Get(AccessTokenKey)), fetch).user
    ensures session.data ==
      if Authenticate(old(session.Get(AccessTokenKey)), fetch).dropToken
      then Transition(old(session.data), TokenDropped)
      else old(session.data)
  {
    var token := session.Get(AccessTokenKey);
    if !Truthy(token) {
      user := Anonymous;
      return;
    }
    match fetch {
      case FetchRaised =>
        user := Anonymous;
      case Answered(status, body) =>
        if status == 200 {
          // response.json() and SupabaseUser(...) both run inside the try block
          if body.None? {
            user := Anonymous;
          } else {
            var built := NewSupabaseUser(body.value);
            user := if built.Ok? then AsPrincipal(built.value) else Anonymous;
          }
        } else {
          user := Anonymous;
          if AccessTokenKey in session.data {
            session.Delete(AccessTokenKey);
          }
        }
    }
  }
}
