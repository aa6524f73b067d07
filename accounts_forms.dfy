// StudentRegistrationForm and AdminRegistrationForm: the e-mail clean-up
// both forms share, and their `save`, which fills in a new user step by
// step. The set of e-mails already registered stands for the
// `CustomUser.objects.filter(email=...)` query.

module AccountsForms {
  import opened Values
  import opened Text
  import opened Validators
  import opened AccountsModels


  datatype EmailError = NotInstitutional | AlreadyRegistered

  function EmailErrorText(e: EmailError): string {
    match e
    case NotInstitutional => "Only CIT institutional email addresses (@cit.edu) are allowed."
    case AlreadyRegistered => "This email address is already registered."
  }

  /**
   * `clean_email`: a non-empty e-mail must end in '@cit.edu'; then an e-mail
   * already registered is refused; otherwise the e-mail is returned as it
   * came. An absent e-mail matches no stored row (the column is not null).
   */
  function CleanEmail(email: Option<string>, existing: set<string>): (r: Result<Option<string>, EmailError>)
    ensures r == Err(NotInstitutional) <==> email.Some? && email.value != "" && !EndsWith(email.value, CitSuffix)
    ensures r == Err(AlreadyRegistered) <==>
      email.Some? && email.value in existing && (email.value == "" || EndsWith(email.value, CitSuffix))
    ensures r.Ok? ==> r.value == email
  {
    if email.Some? && email.value != "" && !EndsWith(email.value, CitSuffix) then Err(NotInstitutional)
    else if email.Some? && email.value in existing then Err(AlreadyRegistered)
    else Ok(email)
  }

  /** An accepted non-empty e-mail is institutional and new. */
  lemma CleanEmailAccepts(email: string, existing: set<string>)
    requires email != "" && CleanEmail(Some(email), existing).Ok?
    ensures EndsWith(email, CitSuffix) && email !in existing
  {
  }

  /**
   * `full_name.split(' ', 1)` into (first_name, last_name): the text before
   * the first space and everything after it, or the whole name and '' when
   * there is no space.
   */
  function SplitFullName(fullName: string): (names: (string, string))
    ensures ' ' in fullName ==> names.0 + " " + names.1 == fullName && ' ' !in names.0
    ensures ' ' !in fullName ==> names == (fullName, "")
  {
    var parts := SplitOnce(fullName, ' ');
    (parts[0], if |parts| > 1 then parts[1] else "")
  }

  /** The cleaned data `save` reads; `memberId` is the student ID or the staff ID. */
  datatype RegistrationData = RegistrationData(
    fullName: string,
    email: string,
    memberId: string,
    phoneNumber: string,
    address: string)

  /** `StudentRegistrationForm.save`: a new user of type 'student'. */
  method SaveStudent(data: RegistrationData) returns (user: CustomUser)
    ensures fresh(user)
    ensures user.userType == "student"
    ensures (user.firstName, user.lastName) == SplitFullName(data.fullName)
    ensures user.username == BeforeFirst(data.email, '@')
    ensures user.email == data.email && user.studentId == Some(data.memberId) && user.staffId.None?
    ensures user.phoneNumber == data.phoneNumber && user.address == data.address
    ensures user.otp.None? && user.otpCreatedAt.None?
  {
    user := new CustomUser();
    user.userType := "student";
    var names := SplitFullName(data.fullName);
    user.firstName := names.0;
    user.lastName := names.1;
    user.username := BeforeFirst(data.email, '@');
    user.email := data.email;
    user.studentId := Some(data.memberId);
    user.phoneNumber := data.phoneNumber;
    user.address := data.address;
  }

  /** `AdminRegistrationForm.save`: a new user of type 'admin'. */
  method SaveAdmin(data: RegistrationData) returns (user: CustomUser)
    ensures fresh(user)
    ensures user.userType == "admin"
    ensures (user.firstName, user.lastName) == SplitFullName(data.fullName)
    ensures user.username == BeforeFirst(data.email, '@')
    ensures user.email == data.email && user.staffId == Some(data.memberId) && user.studentId.None?
    ensures user.phoneNumber == data.phoneNumber && user.address == data.address
    ensures user.otp.None? && user.otpCreatedAt.None?
  {
    user := new CustomUser();
    user.userType := "admin";
    var names := SplitFullName(data.fullName);
    user.firstName := names.0;
    user.lastName := names.1;
    user.username := BeforeFirst(data.email, '@');
    user.email := data.email;
    user.staffId := Some(data.memberId);
    user.phoneNumber := data.phoneNumber;
    user.address := data.address;
  }
}
