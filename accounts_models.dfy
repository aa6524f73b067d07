// The shop's user model: the fields the registration forms fill in,
// their defaults, and the five-minute OTP validity window. Time is counted
// in whole seconds.

module AccountsModels {
  import opened Values

  const OtpLifetimeSeconds := 5 * 60

  class CustomUser {
    var username: string
    var email: string
    var firstName: string
    var lastName: string
    var userType: string
    var studentId: Option<string>
    var staffId: Option<string>
    var phoneNumber: string
    var address: string
    var otp: Option<string>
    var otpCreatedAt: Option<int>

    /** A fresh, unsaved user with the model's defaults; `user_type` defaults to 'student'. */
    constructor ()
      ensures userType == "student"
      ensures studentId.None? && staffId.None? && otp.None? && otpCreatedAt.None?
      ensures username == "" && email == "" && firstName == "" && lastName == ""
      ensures phoneNumber == "" && address == ""
    {
      username, email, firstName, lastName := "", "", "", "";
      userType := "student";
      studentId, staffId := None, None;
      phoneNumber, address := "", "";
      otp, otpCreatedAt := None, None;
    }

    /** `is_otp_valid`: an OTP issued at `otp_created_at` is valid strictly before five minutes have passed. */
    function IsOtpValid(now: int): (valid: bool)
      reads this
      ensures valid ==> otpCreatedAt.Some?
      ensures otpCreatedAt.Some? ==> (valid <==> now - otpCreatedAt.value < OtpLifetimeSeconds)
    {
      match otpCreatedAt
      case None => false
      case Some(created) => now < created + OtpLifetimeSeconds
    }
  }

  /** Without an issue time the OTP is never valid. */
  lemma OtpNeedsTimestamp(u: CustomUser, now: int)
    requires u.otpCreatedAt.None?
    ensures !u.IsOtpValid(now)
  {
  }

  /**
   * With an issue time the OTP is valid for the 300 seconds that follow it
   * and for no later instant: 299 seconds on it is still valid, exactly five
   * minutes on it is not.
   */
  lemma OtpWindow(u: CustomUser, now: int)
    requires u.otpCreatedAt.Some?
    ensures u.IsOtpValid(now) <==> now - u.otpCreatedAt.value < 300
    ensures u.IsOtpValid(u.otpCreatedAt.value + 299)
    ensures !u.IsOtpValid(u.otpCreatedAt.value + 300)
  {
  }

  /** Validity only ever runs out: an OTP valid now was valid at every earlier instant. */
  lemma OtpValidityMonotone(u: CustomUser, earlier: int, now: int)
    requires earlier <= now && u.IsOtpValid(now)
    ensures u.IsOtpValid(earlier)
  {
  }
}
