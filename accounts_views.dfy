// The sign-up, sign-in, sign-out and password-reset views. Every call to
// Supabase is an input outcome; a view's reply, the call it makes
// (if any) and its change to the session are the outputs.

module AccountsViews {
  import opened Values
  import opened Text
  import opened Validators
  import opened Http
  import opened Sessions

  const MinPasswordLength := 6
  const OtpLength := 6

  const InstitutionalOnlyText := "Only CIT institutional email addresses (@cit.edu) are allowed."
  const PasswordMismatchText := "Passwords do not match."
  const PasswordTooShortText := "Password must be at least 6 characters long."
  const RegisteredText := "Registration successful! You can now login."
  const RegistrationFailedText := "Registration failed. Please try again."
  const AlreadyRegisteredText := "This email is already registered."
  const CredentialsRequiredText := "Email and password are required."
  const InvalidLoginText := "Invalid email or password."
  const VerifyEmailFirstText := "Please verify your email first."
  const InvalidOtpFormatText := "Please enter a valid 6-digit OTP."
  const OtpVerifiedText := "OTP verified! Please enter your new password."
  const InvalidOrExpiredOtpText := "Invalid or expired OTP."
  const OtpExpiredText := "OTP has expired. Please request a new one."
  const InvalidOtpText := "Invalid OTP. Please try again."
  const VerifyOtpFirstText := "Please verify your OTP first."
  const ResetFailedText := "Failed to reset password. Please try again."

  /** A POST field that is present and non-empty (`if not x` fails for None and ''). */
  predicate Filled(x: Option<string>) {
    x.Some? && x.value != ""
  }

  /** `not email or not email.endswith('@cit.edu')` is false. */
  predicate InstitutionalEmail(email: Option<string>) {
    Filled(email) && EndsWith(email.value, CitSuffix)
  }

  // ---------------------------------------------------------------------------
  // Password rule shared by register and reset_password

  datatype PasswordVerdict = Mismatch | Missing | TooShort | Acceptable

  /**
   * `password1 != password2`, then `len(password1) < 6`; `Missing` is the
   * case where both are absent and `len(None)` raises TypeError.
   */
  function CheckPasswords(p1: Option<string>, p2: Option<string>): (v: PasswordVerdict)
    ensures v == Mismatch <==> p1 != p2
    ensures v == Missing <==> p1 == p2 && p1.None?
    ensures v == TooShort <==> p1 == p2 && p1.Some? && |p1.value| < MinPasswordLength
    ensures v == Acceptable <==> p1 == p2 && p1.Some? && |p1.value| >= MinPasswordLength
  {
    if p1 != p2 then Mismatch
    else if p1.None? then Missing
    else if |p1.value| < MinPasswordLength then TooShort
    else Acceptable
  }

  /** The reply for a password that failed the rule, rendered on `page`. */
  function PasswordRejection(v: PasswordVerdict, page: Page): Reply
    requires v != Acceptable
  {
    match v
    case Mismatch => RenderWith(page, ErrorMessage(PasswordMismatchText))
    case TooShort => RenderWith(page, ErrorMessage(PasswordTooShortText))
    case Missing => Reply(Uncaught("TypeError"), [])
  }

  // ---------------------------------------------------------------------------
  // register

  datatype RegisterForm = RegisterForm(
    userType: Option<string>,
    email: Option<string>,
    password1: Option<string>,
    password2: Option<string>,
    fullName: Option<string>,
    studentId: Option<string>,
    staffId: Option<string>,
    phoneNumber: Option<string>,
    address: Option<string>)

  /** The profile fields sent with the sign-up and written to user_profiles. */
  datatype ProfileFields = ProfileFields(
    fullName: Option<string>,
    userType: string,
    studentId: Option<string>,
    staffId: Option<string>,
    phoneNumber: Option<string>,
    address: Option<string>)

  datatype SignUpRequest = SignUpRequest(email: string, password: string, data: ProfileFields)
  datatype ProfileInsert = ProfileInsert(userId: string, email: string, data: ProfileFields)

  /** What `supabase.auth.sign_up` did. */
  datatype SignUpOutcome = SignedUp(userId: string) | SignUpWithoutUser | SignUpRaised(message: string)

  datatype RegisterResult = RegisterResult(
    signUp: Option<SignUpRequest>,
    profileInsert: Option<ProfileInsert>,
    reply: Reply)

  /** `request.POST.get('user_type', 'student')` */
  function PostedUserType(form: RegisterForm): string {
    if form.userType.Some? then form.userType.value else "student"
  }

  /** The profile fields: the student ID only for students, the staff ID only for admins. */
  function RoleFields(form: RegisterForm): (f: ProfileFields)
    ensures f.userType == PostedUserType(form)
    ensures f.studentId.Some? ==> f.userType == "student" && f.studentId == form.studentId
    ensures f.staffId.Some? ==> f.userType == "admin" && f.staffId == form.staffId
    ensures f.userType == "student" ==> f.studentId == form.studentId && f.staffId.None?
    ensures f.userType == "admin" ==> f.staffId == form.staffId && f.studentId.None?
    ensures f.fullName == form.fullName && f.phoneNumber == form.phoneNumber && f.address == form.address
  {
    var t := PostedUserType(form);
    ProfileFields(form.fullName, t,
                  if t == "student" then form.studentId else None,
                  if t == "admin" then form.staffId else None,
                  form.phoneNumber, form.address)
  }

  /** The message for a sign-up call that raised, by a case-insensitive look for 'already registered'. */
  function SignUpErrorText(message: string): (t: string)
    ensures Contains(Lower(message), "already registered") ==> t == AlreadyRegisteredText
    ensures !Contains(Lower(message), "already registered") ==> t == "Registration error: " + message
  {
    if Contains(Lower(message), "already registered") then AlreadyRegisteredText
    else "Registration error: " + message
  }

  /**
   * `register`. A POST is checked in a fixed order (institutional e-mail,
   * matching passwords, minimum length) and the first failure decides the
   * reply; the sign-up call is made only when every check passes, and the
   * profile row is written only when the sign-up returned a user. A failed
   * profile write does not change the reply, so it is not an input.
   */
  function Register(isPost: bool, queryType: Option<string>, form: RegisterForm, outcome: SignUpOutcome): (r: RegisterResult)
    ensures !isPost ==>
      r == RegisterResult(None, None, RenderWith(RegisterPage(if queryType.Some? then queryType.value else "student"), []))
    ensures r.signUp.Some? <==>
      isPost && InstitutionalEmail(form.email) && CheckPasswords(form.password1, form.password2) == Acceptable
    ensures r.signUp.Some? ==> r.signUp.value == SignUpRequest(form.email.value, form.password1.value, RoleFields(form))
    ensures r.profileInsert.Some? <==> r.signUp.Some? && outcome.SignedUp?
    ensures r.profileInsert.Some? ==>
      r.profileInsert.value == ProfileInsert(outcome.userId, form.email.value, RoleFields(form))
    ensures isPost && !InstitutionalEmail(form.email) ==>
      r.reply == RenderWith(RegisterPage(PostedUserType(form)), ErrorMessage(InstitutionalOnlyText))
    ensures isPost && InstitutionalEmail(form.email) && CheckPasswords(form.password1, form.password2) != Acceptable ==>
      r.reply == PasswordRejection(CheckPasswords(form.password1, form.password2), RegisterPage(PostedUserType(form)))
    ensures r.signUp.Some? && outcome.SignedUp? ==>
      r.reply == Reply(Redirect(Login), [Message(Success, RegisteredText)])
    ensures r.signUp.Some? && outcome.SignUpWithoutUser? ==>
      r.reply == RenderWith(RegisterPage(PostedUserType(form)), ErrorMessage(RegistrationFailedText))
    ensures r.signUp.Some? && outcome.SignUpRaised? ==>
      r.reply == RenderWith(RegisterPage(PostedUserType(form)), ErrorMessage(SignUpErrorText(outcome.message)))
  {
    if !isPost then
      RegisterResult(None, None, RenderWith(RegisterPage(if queryType.Some? then queryType.value else "student"), []))
    else
      var page := RegisterPage(PostedUserType(form));
      if !InstitutionalEmail(form.email) then
        RegisterResult(None, None, RenderWith(page, ErrorMessage(InstitutionalOnlyText)))
      else
        var verdict := CheckPasswords(form.password1, form.password2);
        if verdict != Acceptable then
          RegisterResult(None, None, PasswordRejection(verdict, page))
        else
          var fields := RoleFields(form);
          var request := SignUpRequest(form.email.value, form.password1.value, fields);
          match outcome
          case SignedUp(id) =>
            RegisterResult(Some(request), Some(ProfileInsert(id, form.email.value, fields)),
                           Reply(Redirect(Login), [Message(Success, RegisteredText)]))
          case SignUpWithoutUser =>
            RegisterResult(Some(request), None, RenderWith(page, ErrorMessage(RegistrationFailedText)))
          case SignUpRaised(m) =>
            RegisterResult(Some(request), None, RenderWith(page, ErrorMessage(SignUpErrorText(m))))
  }

  /** A rejected e-mail decides the reply whatever the passwords are, and no sign-up is attempted. */
  lemma RegisterEmailCheckFirst(queryType: Option<string>, form: RegisterForm, outcome: SignUpOutcome)
    requires !InstitutionalEmail(form.email)
    ensures Register(true, queryType, form, outcome).signUp.None?
    ensures Register(true, queryType, form, outcome).reply.messages == ErrorMessage(InstitutionalOnlyText)
  {
  }

  // ---------------------------------------------------------------------------
  // login_view

  /** What `supabase.auth.sign_in_with_password` did. */
  datatype SignInOutcome =
    | SignedIn(accessToken: string, userId: string, email: Json, metadata: map<string, Json>)
    | SignInWithoutSession
    | SignInRaised(message: string)

  /** The credentials sent to `supabase.auth.sign_in_with_password`. */
  datatype SignInRequest = SignInRequest(email: string, password: string)

  /** Admins go to the admin dashboard; everyone else, including a user without `user_type`, to the student one. */
  function LoginDestination(metadata: map<string, Json>): (r: Route)
    ensures r == AdminDashboard || r == StudentDashboard
    ensures r == AdminDashboard <==> "user_type" in metadata && metadata["user_type"] == JStr("admin")
  {
    if Get(metadata, "user_type", JStr("student")) == JStr("admin") then AdminDashboard else StudentDashboard
  }

  /** The message for a sign-in call that raised, classified by substring in this order. */
  function LoginErrorText(message: string): (t: string)
    ensures Contains(message, "Invalid login credentials") ==> t == InvalidLoginText
    ensures !Contains(message, "Invalid login credentials") && Contains(message, "Email not confirmed") ==>
      t == VerifyEmailFirstText
    ensures !Contains(message, "Invalid login credentials") && !Contains(message, "Email not confirmed") ==>
      t == "Login error: " + message
  {
    if Contains(message, "Invalid login credentials") then InvalidLoginText
    else if Contains(message, "Email not confirmed") then VerifyEmailFirstText
    else "Login error: " + message
  }

  /** A message carrying both markers is classified as bad credentials. */
  lemma LoginCredentialsMarkerWins(message: string)
    requires Contains(message, "Invalid login credentials") && Contains(message, "Email not confirmed")
    ensures LoginErrorText(message) == InvalidLoginText
  {
  }

  /**
   * `login_view`: `signIn` is the sign-in request made, if any. On a
   * successful sign-in the access token is stored in the session and the
   * user is sent to the dashboard of their type; every other path leaves the
   * session as it was.
   */
  method LoginView(session: Session, isPost: bool, email: Option<string>, password: Option<string>, outcome: SignInOutcome)
    returns (reply: Reply, signIn: Option<SignInRequest>)
    modifies session
    ensures signIn.Some? <==> isPost && Filled(email) && Filled(password)
    ensures signIn.Some? ==> signIn.value == SignInRequest(email.value, password.value)
    ensures !isPost ==> reply == RenderWith(LoginPage, [])
    ensures isPost && signIn.None? ==> reply == RenderWith(LoginPage, ErrorMessage(CredentialsRequiredText))
    ensures signIn.Some? && outcome.SignedIn? ==>
      && reply == RedirectTo(LoginDestination(outcome.metadata))
      && session.data == Transition(old(session.data), TokenStored(JStr(outcome.accessToken)))
    ensures !(signIn.Some? && outcome.SignedIn?) ==> session.data == old(session.data)
    ensures signIn.Some? && outcome.SignInWithoutSession? ==> reply == RenderWith(LoginPage, ErrorMessage(InvalidLoginText))
    ensures signIn.Some? && outcome.SignInRaised? ==>
      reply == RenderWith(LoginPage, ErrorMessage(LoginErrorText(outcome.message)))
  {
    signIn := None;
    if !isPost {
      reply := RenderWith(LoginPage, []);
      return;
    }
    if !Filled(email) || !Filled(password) {
      reply := RenderWith(LoginPage, ErrorMessage(CredentialsRequiredText));
      return;
    }
    signIn := Some(SignInRequest(email.value, password.value));
    match outcome {
      case SignedIn(token, _, _, metadata) =>
        session.Set(AccessTokenKey, JStr(token));
        // the profile upsert that follows swallows its own failure
        reply := RedirectTo(LoginDestination(metadata));
      case SignInWithoutSession =>
        reply := RenderWith(LoginPage, ErrorMessage(InvalidLoginText));
      case SignInRaised(m) =>
        reply := RenderWith(LoginPage, ErrorMessage(LoginErrorText(m)));
    }
  }

  // ---------------------------------------------------------------------------
  // logout_view

  /**
   * `logout_view`: a failing sign-out is ignored, the access token is removed
   * when present, every other session key is kept, and the reply is always
   * the login page.
   */
  method LogoutView(session: Session, signOutRaised: bool) returns (reply: Reply)
    modifies session
    ensures reply == RedirectTo(Login)
    ensures session.data == Transition(old(session.data), TokenDropped)
    ensures AccessTokenKey !in session.data
    ensures forall k :: k != AccessTokenKey ==>
      (k in session.data <==> k in old(session.data)) && (k in session.data ==> session.data[k] == old(session.data)[k])
  {
    if AccessTokenKey in session.data {
      session.Delete(AccessTokenKey);
    }
    reply := RedirectTo(Login);
  }

  // ---------------------------------------------------------------------------
  // forgot_password

  /** Whether `supabase.auth.sign_in_with_otp` returned or raised. */
  datatype OtpSendOutcome = OtpSent | OtpSendRaised

  datatype ForgotResult = ForgotResult(otpRequestedFor: Option<string>, reply: Reply)

  /**
   * `forgot_password`: an OTP is requested only for an institutional e-mail,
   * and the user is then sent to the OTP page whether the request succeeded
   * or not; only the wording of the message differs.
   */
  function ForgotPasswordView(isPost: bool, email: Option<string>, outcome: OtpSendOutcome): (r: ForgotResult)
    ensures !isPost ==> r == ForgotResult(None, RenderWith(ForgotPasswordPage, []))
    ensures r.otpRequestedFor.Some? <==> isPost && InstitutionalEmail(email)
    ensures isPost && !InstitutionalEmail(email) ==> r.reply == RenderWith(ForgotPasswordPage, ErrorMessage(InstitutionalOnlyText))
    ensures r.otpRequestedFor.Some? ==>
      && r.otpRequestedFor.value == email.value
      && r.reply.response == Redirect(VerifyOtp(email.value))
      && r.reply.messages == [Message(Success,
           if outcome.OtpSent? then "An OTP has been sent to " + email.value + ". Please check your inbox."
           else "If an account exists with " + email.value + ", an OTP has been sent.")]
  {
    if !isPost then ForgotResult(None, RenderWith(ForgotPasswordPage, []))
    else if !InstitutionalEmail(email) then ForgotResult(None, RenderWith(ForgotPasswordPage, ErrorMessage(InstitutionalOnlyText)))
    else
      var e := email.value;
      match outcome
      case OtpSent =>
        ForgotResult(Some(e), Reply(Redirect(VerifyOtp(e)), [Message(Success, "An OTP has been sent to " + e + ". Please check your inbox.")]))
      case OtpSendRaised =>
        ForgotResult(Some(e), Reply(Redirect(VerifyOtp(e)), [Message(Success, "If an account exists with " + e + ", an OTP has been sent.")]))
  }

  /** Whether or not the OTP request raised, forgot_password requests the same OTP and redirects to the same page. */
  lemma ForgotPasswordSameRedirect(isPost: bool, email: Option<string>)
    ensures ForgotPasswordView(isPost, email, OtpSent).reply.response == ForgotPasswordView(isPost, email, OtpSendRaised).reply.response
    ensures ForgotPasswordView(isPost, email, OtpSent).otpRequestedFor == ForgotPasswordView(isPost, email, OtpSendRaised).otpRequestedFor
  {
  }

  /**
   * The flash message does tell the two outcomes apart: for an institutional
   * e-mail a successful send and a send that raised queue different texts.
   */
  lemma ForgotPasswordMessagesDiffer(email: string)
    requires InstitutionalEmail(Some(email))
    ensures ForgotPasswordView(true, Some(email), OtpSent).reply.messages
         != ForgotPasswordView(true, Some(email), OtpSendRaised).reply.messages
  {
    var sent := "An OTP has been sent to " + email + ". Please check your inbox.";
    var raised := "If an account exists with " + email + ", an OTP has been sent.";
    assert sent[0] == 'A' && raised[0] == 'I';
  }

  // ---------------------------------------------------------------------------
  // verify_otp

  /** `not otp or len(otp) != 6` is false: only the length is checked. */
  predicate OtpAccepted(otp: Option<string>)
    ensures OtpAccepted(otp) <==> otp.Some? && |otp.value| == OtpLength
  {
    Filled(otp) && |otp.value| == OtpLength
  }

  /** Any six characters pass, digits or not; five or seven never do. */
  lemma OtpLengthOnly(otp: string)
    ensures OtpAccepted(Some(otp)) <==> |otp| == 6
    ensures OtpAccepted(Some("abcdef"))
  {
  }

  /** What `supabase.auth.verify_otp` did. */
  datatype OtpCheckOutcome = OtpSession(accessToken: string) | OtpWithoutSession | OtpRaised(message: string)

  /** What is sent to `supabase.auth.verify_otp`: the e-mail, the code, and the type 'email'. */
  datatype OtpCheckRequest = OtpCheckRequest(email: string, token: string, otpType: string)

  /** The message for an OTP check that raised: a case-insensitive look for 'expired'. */
  function OtpErrorText(message: string): (t: string)
    ensures t == OtpExpiredText <==> Contains(Lower(message), "expired")
    ensures t == OtpExpiredText || t == InvalidOtpText
  {
    if Contains(Lower(message), "expired") then OtpExpiredText else InvalidOtpText
  }

  /**
   * `verify_otp`: `check` is the OTP check made, if any. An OTP of the
   * wrong length is rejected before Supabase is asked; a successful check
   * stores the token and the e-mail being reset.
   */
  method VerifyOtpView(session: Session, isPost: bool, email: string, otp: Option<string>, outcome: OtpCheckOutcome)
    returns (reply: Reply, check: Option<OtpCheckRequest>)
    modifies session
    ensures check.Some? <==> isPost && OtpAccepted(otp)
    ensures check.Some? ==> check.value == OtpCheckRequest(email, otp.value, "email")
    ensures !isPost ==> reply == RenderWith(VerifyOtpPage(email), [])
    ensures isPost && !OtpAccepted(otp) ==> reply == RenderWith(VerifyOtpPage(email), ErrorMessage(InvalidOtpFormatText))
    ensures check.Some? && outcome.OtpSession? ==>
      && reply == Reply(Redirect(ResetPassword), [Message(Success, OtpVerifiedText)])
      && session.data == Transition(old(session.data), OtpVerified(JStr(outcome.accessToken), email))
    ensures !(check.Some? && outcome.OtpSession?) ==> session.data == old(session.data)
    ensures check.Some? && outcome.OtpWithoutSession? ==>
      reply == RenderWith(VerifyOtpPage(email), ErrorMessage(InvalidOrExpiredOtpText))
    ensures check.Some? && outcome.OtpRaised? ==>
      reply == RenderWith(VerifyOtpPage(email), ErrorMessage(OtpErrorText(outcome.message)))
  {
    check := None;
    if !isPost {
      reply := RenderWith(VerifyOtpPage(email), []);
      return;
    }
    if !OtpAccepted(otp) {
      reply := RenderWith(VerifyOtpPage(email), ErrorMessage(InvalidOtpFormatText));
      return;
    }
    check := Some(OtpCheckRequest(email, otp.value, "email"));
    match outcome {
      case OtpSession(token) =>
        session.Set(AccessTokenKey, JStr(token));
        session.Set(ResetEmailKey, JStr(email));
        reply := Reply(Redirect(ResetPassword), [Message(Success, OtpVerifiedText)]);
      case OtpWithoutSession =>
        reply := RenderWith(VerifyOtpPage(email), ErrorMessage(InvalidOrExpiredOtpText));
      case OtpRaised(m) =>
        reply := RenderWith(VerifyOtpPage(email), ErrorMessage(OtpErrorText(m)));
    }
  }

  // ---------------------------------------------------------------------------
  // reset_password

  /** What `supabase.auth.update_user` did. */
  datatype PasswordUpdateOutcome = UpdatedUser | UpdateWithoutUser | UpdateRaised(message: string)

  /** What is sent to `supabase.auth.update_user`: the new password only. */
  datatype PasswordUpdateRequest = PasswordUpdateRequest(password: string)

  /**
   * `reset_password`: `update` is the password update made, if any.
   * Without a stored token the user is sent back to
   * forgot_password; otherwise the new password passes the same rule as at
   * registration, and a successful update clears both the reset e-mail and
   * the token.
   */
  method ResetPasswordView(session: Session, isPost: bool, p1: Option<string>, p2: Option<string>, outcome: PasswordUpdateOutcome)
    returns (reply: Reply, update: Option<PasswordUpdateRequest>)
    modifies session
    ensures AccessTokenKey !in old(session.data) ==>
      reply == Reply(Redirect(ForgotPassword), ErrorMessage(VerifyOtpFirstText))
    ensures update.Some? <==> AccessTokenKey in old(session.data) && isPost && CheckPasswords(p1, p2) == Acceptable
    ensures update.Some? ==> update.value == PasswordUpdateRequest(p1.value)
    ensures AccessTokenKey in old(session.data) && !isPost ==> reply == RenderWith(ResetPasswordPage, [])
    ensures AccessTokenKey in old(session.data) && isPost && CheckPasswords(p1, p2) != Acceptable ==>
      reply == PasswordRejection(CheckPasswords(p1, p2), ResetPasswordPage)
    ensures update.Some? && outcome.UpdatedUser? ==>
      reply == RedirectTo(Login) && session.data == Transition(old(session.data), ResetCompleted)
    ensures !(update.Some? && outcome.UpdatedUser?) ==> session.data == old(session.data)
    ensures update.Some? && outcome.UpdateWithoutUser? ==> reply == RenderWith(ResetPasswordPage, ErrorMessage(ResetFailedText))
    ensures update.Some? && outcome.UpdateRaised? ==>
      reply == RenderWith(ResetPasswordPage, ErrorMessage("Error: " + outcome.message))
  {
    update := None;
    if AccessTokenKey !in session.data {
      reply := Reply(Redirect(ForgotPassword), ErrorMessage(VerifyOtpFirstText));
      return;
    }
    if !isPost {
      reply := RenderWith(ResetPasswordPage, []);
      return;
    }
    var verdict := CheckPasswords(p1, p2);
    if verdict != Acceptable {
      reply := PasswordRejection(verdict, ResetPasswordPage);
      return;
    }
    update := Some(PasswordUpdateRequest(p1.value));
    match outcome {
      case UpdatedUser =>
        if ResetEmailKey in session.data {
          session.Delete(ResetEmailKey);
        }
        if AccessTokenKey in session.data {
          session.Delete(AccessTokenKey);
        }
        reply := RedirectTo(Login);
      case UpdateWithoutUser =>
        reply := RenderWith(ResetPasswordPage, ErrorMessage(ResetFailedText));
      case UpdateRaised(m) =>
        reply := RenderWith(ResetPasswordPage, ErrorMessage("Error: " + m));
    }
  }
}
