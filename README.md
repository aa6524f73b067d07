# CIT Shop: authentication, role gating and session core

CIT Shop is a Django web shop for the CIT campus. Supabase handles accounts and tokens. This project models the part of it that decides, for each request, who the user is, what they may see and what goes into their session:

- the registration, login, logout, forgot-password, OTP-verification and password-reset views;
- the registration forms' e-mail check and `save`, and the user model's validators and OTP window;
- the Supabase authentication middleware and the `SupabaseUser` it builds;
- the dashboard redirect, the two dashboards' access gates, their display-name fallback chains and "welcome back" flags;
- the `profile_context` template context processor;
- the `admin_required` decorator;
- the `log_activity` helper.

Every Supabase auth call (sign-up, sign-in, OTP send and check, password update) and the `/auth/v1/user` lookup is an input to the model: a datatype naming the possible outcomes, including the exception. Sign-out is a flag saying whether it raised. The writes to the `user_profiles` table are outgoing requests whose failure the code swallows: `Register` returns the row it inserts, and the login upsert is left out. A view's reply is a value (`Http.Reply`): a redirect, a rendered page or an uncaught exception, together with the flash messages it queued. JSON values, session values and user metadata are `Values.Json`, and Python truthiness is `Values.Truthy`.

Module layout:

- `Values` and `Text` model the Python primitives the code relies on: truthiness, `or`, `dict.get`, `split`, `strip`, `lower`, `in` on strings.
- `Validators` holds the regular-expression validators.
- `Sessions` holds the session: a class over a key/value map, plus a small state machine (`Transition`) that names every way the views change it. Each state-changing view promises its new session as one `Transition` of the old one.
- `Http` holds the shapes of replies.
- One module per source file for the rest.

The request user is modelled as `AuthMiddleware.Principal`, a record of optional attributes (None = attribute absent), because the views read it by duck typing (`getattr`, `hasattr`). Two kinds of user reach the views:

- the anonymous user (`AuthMiddleware.Anonymous`);
- `AuthMiddleware.AsPrincipal` of a `SupabaseUser`.

That is because the Supabase middleware runs after Django's own authentication middleware and always overwrites `request.user`.

Notes on the code:

- the middleware keeps the session token when the user lookup raises, and only drops it on a non-200 answer;
- there is no token refresh;
- login upserts a profile row but the middleware never reads one back;
- passwords are checked only for equality and a minimum length of 6;
- forgot-password redirects to the same page whether the OTP send succeeded or raised, but the two outcomes queue different messages, so the message shows which one happened;
- a SupabaseUser whose e-mail starts with '@' gets the empty username.

## Model

| member | source | states |
|---|---|---|
| Values.FirstTruthy | dashboards/views.py:35-50 | the value of a Python `a or b or …` chain: None iff every candidate is falsy, otherwise the first truthy one, with all earlier candidates falsy |
| Text.Lower | accounts/views.py:80 | ASCII `lower()`: same length, each upper-case letter mapped to its lower-case one and every other character kept |
| Text.BeforeFirst | accounts/forms.py:105 | `s.split(c)[0]`: a prefix of `s` without `c` that stops exactly at the first `c` (or is all of `s`) |
| Text.BeforeFirstWhole | supabase_auth_middleware.py:16 | the prefix is the whole string iff the separator does not occur |
| Text.SplitOnce | accounts/forms.py:100 | `s.split(sep, 1)`: two parts iff `sep` occurs, rejoined by `sep` they give `s` back, and the first part holds no `sep` |
| Text.FirstWord | dashboards/views.py:53 | `s.split()[0]`: None (IndexError) iff `s` is all whitespace, otherwise a non-empty run without whitespace that starts at the first non-space and ends at whitespace or the end |
| Text.ContainsAt | accounts/views.py:152 | `sub in s` holds whenever `sub` occurs at some position of `s` |
| Text.ContainsOccurs | accounts/views.py:152 | `sub in s` holds only when `sub` occurs at some position of `s` |
| Text.StripEmptyIffBlank | dashboards/context_processors.py:33 | `strip()` yields '' iff the string is all whitespace |
| Validators.StudentIdIffShape | accounts/forms.py:21-24 | the student ID validator accepts exactly 11 characters: 2 digits, '-', 4 digits, '-', 3 digits |
| Validators.PhoneIffShape | accounts/models.py:18-21 | the phone validator accepts exactly '+63 ' followed by groups of 3, 3 and 4 digits separated by single spaces |
| Validators.StaffIdIsStudentIdRule | accounts/models.py:23-31 | the staff ID and student ID validators use the same pattern and accept the same strings |
| Sessions.Transition | accounts/views.py:106 | each session write of the code as one event: sign-in stores the token (views.py:106); OTP verification stores the token and the reset e-mail (226-227); logout (172) and the middleware's non-200 branch (supabase_auth_middleware.py:60-61) remove the token; a completed reset removes both (272-274); a dashboard sets its own greeting flag to True (dashboards/views.py:57, 109); no key outside the event's own appears or vanishes |
| Sessions.TransitionFrame | accounts/views.py:164-175 | a session event leaves every key outside the keys it names untouched |
| Sessions.RunToken | accounts/views.py:106 | after any sequence of login, OTP, logout, token-rejection, reset and greeting events, the token is present iff the last token-touching event stored one, and it holds that event's token |
| Sessions.ResetClearsFlow | accounts/views.py:269-274 | after a completed reset neither the access token nor the reset e-mail is in the session, whatever came before |
| Sessions.Session.Set | accounts/views.py:226-227 | storing a key changes that key only |
| Sessions.Session.Delete | accounts/views.py:272-274 | deleting a present key removes that key only |
| AccountsViews.CheckPasswords | accounts/views.py:30-36 | mismatch iff the two passwords differ; otherwise missing (len(None) raises) iff both are absent, too short iff shorter than 6, acceptable iff at least 6 |
| AccountsViews.RoleFields | accounts/views.py:46-48 | the student ID is sent only for user type 'student' and the staff ID only for 'admin'; the other one is None |
| AccountsViews.SignUpErrorText | accounts/views.py:78-83 | a sign-up exception whose lower-cased text mentions 'already registered' gives the already-registered message, any other gives 'Registration error: ' and the text |
| AccountsViews.Register | accounts/views.py:10-85 | GET renders the form for the queried type; sign-up is called iff the e-mail is present and institutional and the passwords match with length at least 6, with exactly the posted fields; the first failing check (suffix, match, length) decides the message; the profile row is inserted iff sign-up returned a user |
| AccountsViews.RegisterEmailCheckFirst | accounts/views.py:26-28 | a missing or non-institutional e-mail is refused with the institutional-only message before any sign-up call, whatever the passwords are |
| AccountsViews.LoginDestination | accounts/views.py:111 | after login the user goes to the admin dashboard iff metadata `user_type` is 'admin', and to the student dashboard otherwise, including when it is missing |
| AccountsViews.LoginErrorText | accounts/views.py:150-157 | 'Invalid login credentials' in the error gives the invalid-login message; otherwise 'Email not confirmed' gives the verify-first message; otherwise 'Login error: ' and the text |
| AccountsViews.LoginCredentialsMarkerWins | accounts/views.py:152-155 | an error naming both markers is reported as invalid credentials |
| AccountsViews.LoginView | accounts/views.py:88-159 | sign-in is attempted iff both fields are non-empty on POST, with exactly the posted e-mail and password; only a sign-in with a session stores the token (one `TokenStored` transition) and redirects by `LoginDestination`; all other paths leave the session as it was |
| AccountsViews.LogoutView | accounts/views.py:162-175 | always redirects to login, whether sign-out raised or not; afterwards the token is gone and every other key is unchanged |
| AccountsViews.ForgotPasswordView | accounts/views.py:178-204 | an OTP is requested iff the posted e-mail is present and institutional; a send that raises still redirects to OTP entry |
| AccountsViews.ForgotPasswordSameRedirect | accounts/views.py:187-202 | a failed OTP send and a successful one request the same OTP and redirect to the same OTP-entry page |
| AccountsViews.ForgotPasswordMessagesDiffer | accounts/views.py:196-201 | for an institutional e-mail, a successful send and a send that raised queue different flash messages |
| AccountsViews.OtpAccepted | accounts/views.py:212 | `not otp or len(otp) != 6` lets an OTP through iff it is present and exactly 6 characters long |
| AccountsViews.OtpLengthOnly | accounts/views.py:212-214 | an OTP passes the form check iff it has exactly 6 characters; digits are not required ('abcdef' passes) |
| AccountsViews.OtpErrorText | accounts/views.py:234-239 | an OTP check exception is reported as expired iff its lower-cased text mentions 'expired', otherwise as invalid |
| AccountsViews.VerifyOtpView | accounts/views.py:207-241 | the OTP is checked iff it is present with length 6, sending the URL's e-mail, the posted OTP and type 'email'; only an answer with a session stores both the token and the reset e-mail (one `OtpVerified` transition) and redirects to the reset page; every other path leaves the session as it was |
| AccountsViews.ResetPasswordView | accounts/views.py:244-284 | without a token in the session the user is sent to forgot-password; the update is called iff the token is there and both passwords match with length at least 6, and sends the new password only; a successful update removes the token and the reset e-mail (one `ResetCompleted` transition) and redirects to login |
| AccountsModels.CustomUser.constructor | accounts/models.py:34 | a new user has user type 'student' and no IDs, OTP or OTP timestamp |
| AccountsModels.CustomUser.IsOtpValid | accounts/models.py:51-56 | valid only with a creation time, and then iff fewer than 300 seconds have passed since it |
| AccountsModels.OtpNeedsTimestamp | accounts/models.py:53-56 | an OTP without a creation time is never valid |
| AccountsModels.OtpWindow | accounts/models.py:51-56 | an OTP is valid iff fewer than 300 seconds have passed since it was created; 299 seconds is valid, exactly 300 is not |
| AccountsModels.OtpValidityMonotone | accounts/models.py:54-55 | an OTP valid now was valid at every earlier moment |
| AccountsForms.CleanEmail | accounts/forms.py:83-92 | a non-empty e-mail not ending in '@cit.edu' is refused as non-institutional; otherwise one already registered is refused; otherwise the e-mail is returned unchanged |
| AccountsForms.CleanEmailAccepts | accounts/forms.py:191-200 | an accepted non-empty e-mail is institutional and not yet registered |
| AccountsForms.SplitFullName | accounts/forms.py:99-102 | first name is the text before the first space and last name the rest, which rejoin to the full name; without a space, the whole name and '' |
| AccountsForms.SaveStudent | accounts/forms.py:94-113 | the new user has type 'student', the split name, the e-mail prefix before '@' as username, the student ID and no staff ID |
| AccountsForms.SaveAdmin | accounts/forms.py:202-221 | the new user has type 'admin', the split name, the e-mail prefix as username, the staff ID and no student ID |
| AuthMiddleware.NewSupabaseUser | supabase_auth_middleware.py:11-17 | from the user data: id and e-mail as given, metadata as given or {} when absent, user type defaulting to 'student', username the e-mail prefix before '@' or 'user' when the e-mail is empty or absent; AttributeError when the data, e-mail or metadata has the wrong type |
| AuthMiddleware.AtFirstEmailEmptyUsername | supabase_auth_middleware.py:16 | an e-mail that starts with '@' yields the empty username |
| AuthMiddleware.GetFullName | supabase_auth_middleware.py:19-20 | the metadata's `full_name` when the key is present (even if empty), the username otherwise |
| AuthMiddleware.AsPrincipal | supabase_auth_middleware.py:9-20 | a SupabaseUser is authenticated, has neither `raw_user_meta_data` nor `profile`, and shows the views its own user type, metadata, username and e-mail |
| AuthMiddleware.Authenticate | supabase_auth_middleware.py:27-66 | the user is authenticated iff a token is present and the lookup answered 200 with data that builds a SupabaseUser, and anonymous otherwise; the token is dropped iff the lookup answered with another status, and not when it raised |
| AuthMiddleware.AuthenticatedKeepsToken | supabase_auth_middleware.py:53-62 | an authenticated request never loses its token |
| AuthMiddleware.ProcessRequest | supabase_auth_middleware.py:27-66 | `request.user` is the decision's user; the session is unchanged unless the token is dropped, which is one `TokenDropped` transition |
| DashboardsViews.DashboardRedirect | dashboards/views.py:5-16 | anonymous users go to login; users of type 'admin' go to the admin dashboard; every other or missing type goes to the student dashboard |
| DashboardsViews.StudentGate | dashboards/views.py:22-29 | student_dashboard lets a user in iff they are authenticated and not of type 'admin'; anonymous users go to login, admins to the admin dashboard |
| DashboardsViews.AdminGate | dashboards/views.py:73-81 | admin_dashboard lets a user in iff they are authenticated and of type 'admin'; anonymous users go to login, everyone else to the student dashboard with a warning; a user without a user type is never let in |
| DashboardsViews.GatesAgreeWithRedirect | dashboards/views.py:22-29 | both dashboards refuse anonymous users with the login redirect; an authenticated user passes exactly one of the two gates, the one `dashboard_redirect` would pick |
| DashboardsViews.DisplayName | dashboards/views.py:34-53 | a shown name is the fallback or a non-empty word without whitespace |
| DashboardsViews.DisplayNameChain | dashboards/views.py:35-53 | the name is the first whitespace word of the first truthy value among metadata full_name, name, first_name, username, the user's username, the user's e-mail, then the fallback; a non-string there gives the fallback, an all-blank string raises IndexError |
| DashboardsViews.RawNameChain | dashboards/views.py:35-50 | the `or` chain selects the first truthy candidate, or the fallback when there is none |
| DashboardsViews.FallbackNamesAreWords | dashboards/views.py:49-53 | 'Wildcat' and 'Admin' are single words, so they are shown unchanged |
| DashboardsViews.SupabaseUserChainNeverEmpty | dashboards/views.py:35-53 | for a SupabaseUser the chain always reaches a truthy value: without an e-mail the username 'user' is truthy, and otherwise the e-mail itself is |
| DashboardsViews.BlankFullNameRaises | dashboards/views.py:53 | for every SupabaseUser whose metadata full_name is a non-empty all-whitespace string, that name is truthy, is picked, and makes `split()[0]` raise IndexError, whatever the fallback |
| DashboardsViews.StudentDashboardView | dashboards/views.py:19-63 | a refused user gets the gate's reply with the session unchanged; otherwise the page greets with 'Welcome back' iff the student flag was set, shows `DisplayName`, and sets only the student flag; a display name that raises (a non-empty all-whitespace name) gives an uncaught IndexError and sets no flag |
| DashboardsViews.AdminDashboardView | dashboards/views.py:70-125 | a refused user gets the gate's reply with the session unchanged; otherwise the page greets by the admin flag, shows `DisplayName` and the fixed statistics, and sets only the admin flag; a display name that raises (a non-empty all-whitespace name) gives an uncaught IndexError and sets no flag |
| DashboardsContext.ProfileContext | dashboards/context_processors.py:3-44 | two keys only; without an authenticated user, no profile and 'Student'; otherwise the profile iff it is truthy, and the name before the first space of a non-blank profile full_name (empty if it opens with a space), else the e-mail prefix before '@', else 'Student'; a user without a profile attribute gets no profile and the e-mail prefix |
| DashboardsDecorators.AdminRequired | dashboards/decorators.py:6-29 | the view runs, with the same user and arguments, iff the user is authenticated and `raw_user_meta_data['user_type']` is 'admin'; anonymous users go to login; every other user goes to the student dashboard (an uncaught AttributeError when `raw_user_meta_data` is not a dict) |
| DashboardsDecorators.MissingRawMetadataDenied | dashboards/decorators.py:18-19 | a missing `raw_user_meta_data` reads as {} and leads to the student dashboard |
| DashboardsDecorators.SupabaseUserAlwaysRefused | dashboards/decorators.py:18-27 | every SupabaseUser, whatever its metadata, is refused and sent to the student dashboard |
| DashboardsDecorators.AdminChecksDisagree | dashboards/decorators.py:21-27 | every SupabaseUser of type 'admin' passes the admin dashboard's own gate but is refused by `admin_required` |
| DashboardsUtils.ActivityLog.constructor | dashboards/utils.py:5 | the log starts empty |
| DashboardsUtils.ActivityLog.LogActivity | dashboards/utils.py:5-23 | a row is added iff the user is present, authenticated and storage does not raise; then exactly one row (user, action, details or {}) is appended and nothing else changes; otherwise the log is unchanged and nothing propagates |

## Left out

- Supabase and HTTP calls are not executed; their results are inputs (`SignUpOutcome`, `SignInOutcome`, `OtpSendOutcome`, `OtpCheckOutcome`, `PasswordUpdateOutcome`, `UserFetch`, `storageRaises`).
- Template rendering, `redirect` and the messages framework are returned as values; console `print` output is dropped.
- Django's saving of the session (`Session.save`, cookies) is not modelled; the session is its key/value map.
- The profile upsert that login sends to `user_profiles` is not modelled beyond its being a network call whose failure does not change the reply.
- Password hashing, `commit=True` persistence and the ORM's own field handling (max_length, required, blank and null, stripping of posted values, skipping validators on blank values) are not modelled.
- Validators: `\d` is modelled as the ASCII digits only, and `$` matching before a trailing newline is not modelled.
- Text.Lower: only ASCII letters are lowered, not the rest of Unicode.
- AccountsModels.CustomUser.IsOtpValid: time is whole seconds, given as a parameter in place of `timezone.now()`.
- Every request user is assumed to have an `is_authenticated` attribute.
- DashboardsUtils.ActivityLog.LogActivity: the ORM refusing a user that is not a `CustomUser` row (a SupabaseUser) is part of `storageRaises` rather than derived.
- URL building is not modelled: a redirect names its route (`Http.Route`) and always succeeds. In Django, reversing `verify-otp/<str:email>/` for an e-mail holding '/' raises NoReverseMatch; in forgot_password it would raise inside the except handler too, giving a server error rather than the redirect.
- Configuration, URL tables, Django admin classes, the shop's order and product models and the Supabase client set-up are not part of this model.
