// `admin_required`: wraps a view so that it runs only for an authenticated
// user whose `raw_user_meta_data` names them an admin.

module DashboardsDecorators {
  import opened Values
  import opened Http
  import opened AuthMiddleware
  import DashboardsViews

  const NotLoggedInText := "You must be logged in to view this page."
  const NoPermissionText := "You do not have permission to access this page."

  /** What the wrapper did: ran the view and returned its result, or answered itself. */
  datatype Guarded<R> = Invoked(result: R) | Refused(reply: Reply)

  /**
   * `getattr(request.user, 'raw_user_meta_data', {}).get('user_type')`; Err
   * when the attribute holds something other than a dictionary.
   */
  function RawUserType(u: Principal): Result<Json, string> {
    var meta := if u.rawUserMetaData.Some? then u.rawUserMetaData.value else EmptyDict;
    if meta.JObj? then Ok(Get(meta.fields, "user_type", JNull)) else Err("AttributeError")
  }

  /**
   * `admin_required(view)(request, *args)`: the view runs, on the very same
   * user and arguments, exactly when the user is authenticated and
   * `raw_user_meta_data['user_type']` is 'admin'.
   */
  function AdminRequired<A, R>(view: (Principal, A) -> R, user: Principal, args: A): (g: Guarded<R>)
    ensures g.Invoked? <==> user.authenticated && RawUserType(user) == Ok(JStr("admin"))
    ensures g.Invoked? ==> g.result == view(user, args)
    ensures !user.authenticated ==> g == Refused(Reply(Redirect(Login), ErrorMessage(NotLoggedInText)))
    ensures user.authenticated && RawUserType(user).Ok? && RawUserType(user).value != JStr("admin") ==>
      g == Refused(Reply(Redirect(StudentDashboard), ErrorMessage(NoPermissionText)))
    ensures user.authenticated && RawUserType(user).Err? ==> g == Refused(Reply(Uncaught("AttributeError"), []))
  {
    if !user.authenticated then Refused(Reply(Redirect(Login), ErrorMessage(NotLoggedInText)))
    else match RawUserType(user)
      case Err(e) => Refused(Reply(Uncaught(e), []))
      case Ok(t) =>
        if t == JStr("admin") then Invoked(view(user, args))
        else Refused(Reply(Redirect(StudentDashboard), ErrorMessage(NoPermissionText)))
  }

  /** A user without `raw_user_meta_data` reads it as {} and is sent to the student dashboard. */
  lemma MissingRawMetadataDenied<A, R>(view: (Principal, A) -> R, user: Principal, args: A)
    requires user.authenticated && user.rawUserMetaData.None?
    ensures AdminRequired(view, user, args) == Refused(Reply(Redirect(StudentDashboard), ErrorMessage(NoPermissionText)))
  {
  }

  /** SupabaseUser never sets `raw_user_meta_data`, so every SupabaseUser is refused, admins included. */
  lemma SupabaseUserAlwaysRefused<A, R>(view: (Principal, A) -> R, su: SupabaseUser, args: A)
    ensures AdminRequired(view, AsPrincipal(su), args) == Refused(Reply(Redirect(StudentDashboard), ErrorMessage(NoPermissionText)))
  {
    MissingRawMetadataDenied(view, AsPrincipal(su), args);
  }

  /**
   * The two admin checks disagree: every SupabaseUser of type 'admin' is
   * admitted by admin_dashboard's own gate and refused by admin_required.
   */
  lemma AdminChecksDisagree<A, R>(view: (Principal, A) -> R, su: SupabaseUser, args: A)
    requires su.userType == JStr("admin")
    ensures DashboardsViews.AdminGate(AsPrincipal(su)).None?
    ensures AdminRequired(view, AsPrincipal(su), args).Refused?
  {
  }
}
