// `profile_context`: the template context every page receives, holding the
// current user's profile and the name to greet them with. The dictionary
// is built with defaults and then overwritten key by key.

module DashboardsContext {
  import opened Values
  import opened Text
  import opened AuthMiddleware

  const ProfileKey := "profile"
  const DisplayNameKey := "display_name"
  const DefaultDisplayName := "Student"

  /** The e-mail prefix used when `user.email` is a non-empty string; otherwise the default stays. */
  function EmailFallback(u: Principal): string {
    if u.email.Some? && u.email.value.JStr? && u.email.value.s != "" then BeforeFirst(u.email.value.s, '@')
    else DefaultDisplayName
  }

  /** The profile's `full_name` when the profile is a non-empty dictionary and the name is a non-blank string. */
  function ProfileFullName(u: Principal): Option<string> {
    if u.profile.Some? && u.profile.value.JObj? && Truthy(u.profile.value) then
      var full := Get(u.profile.value.fields, "full_name", JNull);
      if full.JStr? && !AllSpace(full.s) then Some(full.s) else None
    else None
  }

  /**
   * `profile_context(request)`. `user` is None when the request has no user
   * attribute. The exceptions the source catches (a missing `email` or
   * `profile` attribute, a profile or name without the needed method) leave
   * the keys as they were at that point.
   */
  method ProfileContext(user: Option<Principal>) returns (context: map<string, Json>)
    ensures context.Keys == {ProfileKey, DisplayNameKey}
    ensures user.None? || !user.value.authenticated ==>
      context == map[ProfileKey := JNull, DisplayNameKey := JStr(DefaultDisplayName)]
    ensures user.Some? && user.value.authenticated ==>
      var u := user.value;
      && context[ProfileKey] == (if u.profile.Some? && Truthy(u.profile.value) then u.profile.value else JNull)
      && context[DisplayNameKey] ==
           JStr(if ProfileFullName(u).Some? then BeforeFirst(ProfileFullName(u).value, ' ') else EmailFallback(u))
    // a user without a `profile` attribute, such as a SupabaseUser, gets no profile and the e-mail prefix
    ensures user.Some? && user.value.authenticated && user.value.profile.None? ==>
      context[ProfileKey] == JNull && context[DisplayNameKey] == JStr(EmailFallback(user.value))
    // the shown name is the full name's text before its first space, empty when the name opens with a space
    ensures user.Some? && user.value.authenticated && ProfileFullName(user.value).Some? ==>
      var full := ProfileFullName(user.value).value;
      && context[DisplayNameKey].JStr?
      && context[DisplayNameKey].s <= full
      && ' ' !in context[DisplayNameKey].s
      && (full[0] == ' ' ==> context[DisplayNameKey].s == "")
  {
    context := map[ProfileKey := JNull, DisplayNameKey := JStr(DefaultDisplayName)];
    if user.None? || !user.value.authenticated {
      return;
    }
    var u := user.value;
    if u.email.Some? && Truthy(u.email.value) && u.email.value.JStr? {
      context := context[DisplayNameKey := JStr(BeforeFirst(u.email.value.s, '@'))];
    }
    if u.profile.Some? {
      var profileData := u.profile.value;
      if Truthy(profileData) {
        context := context[ProfileKey := profileData];
        if profileData.JObj? {
          var fullName := Get(profileData.fields, "full_name", JNull);
          if Truthy(fullName) && fullName.JStr? {
            StripEmptyIffBlank(fullName.s);
            if Strip(fullName.s) != "" {
              context := context[DisplayNameKey := JStr(BeforeFirst(fullName.s, ' '))];
            }
          }
        }
      }
    }
  }
}
