// The server-side session as the shop uses it: a dictionary the views and
// the middleware update in place. The keys it touches, and how each event of
// the sign-in / reset lifecycle changes them, are a small state machine.

module Sessions {
  import opened Values

  const AccessTokenKey := "supa_access_token"
  const ResetEmailKey := "reset_email"
  const StudentGreetedKey := "has_logged_in_before"
  const AdminGreetedKey := "has_logged_in_before_admin"

  /** The session updates the shop performs. */
  datatype SessionEvent =
    | TokenStored(token: Json)                 // login_view after a successful sign-in
    | OtpVerified(token: Json, email: string)  // verify_otp after a successful check
    | TokenDropped                             // logout_view; the middleware on a non-200 answer
    | ResetCompleted                           // reset_password after the password changed
    | Greeted(admin: bool)                     // a dashboard has been shown

  /** The keys an event may write or remove. */
  function Touched(e: SessionEvent): set<string> {
    match e
    case TokenStored(_) => {AccessTokenKey}
    case OtpVerified(_, _) => {AccessTokenKey, ResetEmailKey}
    case TokenDropped => {AccessTokenKey}
    case ResetCompleted => {AccessTokenKey, ResetEmailKey}
    case Greeted(admin) => {if admin then AdminGreetedKey else StudentGreetedKey}
  }

  /**
   * The session after one event: the token and reset e-mail are stored by a
   * sign-in or OTP check and removed by logout, token rejection and reset;
   * a greeting sets its own flag to True. No other key appears or vanishes.
   */
  function Transition(d: map<string, Json>, e: SessionEvent): (r: map<string, Json>)
    ensures e.TokenStored? ==> AccessTokenKey in r && r[AccessTokenKey] == e.token
    ensures e.OtpVerified? ==>
      && AccessTokenKey in r && r[AccessTokenKey] == e.token
      && ResetEmailKey in r && r[ResetEmailKey] == JStr(e.email)
    ensures e.TokenDropped? ==> AccessTokenKey !in r
    ensures e.ResetCompleted? ==> AccessTokenKey !in r && ResetEmailKey !in r
    ensures e.Greeted? ==>
      var flag := if e.admin then AdminGreetedKey else StudentGreetedKey;
      flag in r && r[flag] == JBool(true)
    ensures r.Keys <= d.Keys + Touched(e) && d.Keys - Touched(e) <= r.Keys
  {
    match e
    case TokenStored(t) => d[AccessTokenKey := t]
    case OtpVerified(t, email) => d[AccessTokenKey := t][ResetEmailKey := JStr(email)]
    case TokenDropped => d - {AccessTokenKey}
    case ResetCompleted => d - {ResetEmailKey, AccessTokenKey}
    case Greeted(admin) => d[(if admin then AdminGreetedKey else StudentGreetedKey) := JBool(true)]
  }

  /** An event leaves every key it does not touch exactly as it was. */
  lemma TransitionFrame(d: map<string, Json>, e: SessionEvent, k: string)
    requires k !in Touched(e)
    ensures (k in Transition(d, e)) == (k in d)
    ensures k in d ==> Transition(d, e)[k] == d[k]
  {
  }

  /** The session after a sequence of events, applied first to last. */
  function Run(d: map<string, Json>, evs: seq<SessionEvent>): map<string, Json>
    decreases |evs|
  {
    if evs == [] then d else Run(Transition(d, evs[0]), evs[1..])
  }

  lemma {:induction false} RunSnoc(d: map<string, Json>, evs: seq<SessionEvent>, e: SessionEvent)
    ensures Run(d, evs + [e]) == Transition(Run(d, evs), e)
    decreases |evs|
  {
    if evs == [] {
      assert [e][1..] == [];
    } else {
      assert (evs + [e])[1..] == evs[1..] + [e];
      RunSnoc(Transition(d, evs[0]), evs[1..], e);
    }
  }

  /**
   * The access token a session holds after a sequence of events, read off the
   * last event that sets or clears it: the events that set it are a sign-in
   * and an OTP check, every other event that touches it clears it, and with
   * no such event the starting session decides.
   */
  function TokenAfter(d: map<string, Json>, evs: seq<SessionEvent>): Option<Json>
    decreases |evs|
  {
    if evs == [] then (if AccessTokenKey in d then Some(d[AccessTokenKey]) else None)
    else match evs[|evs| - 1]
      case TokenStored(t) => Some(t)
      case OtpVerified(t, _) => Some(t)
      case TokenDropped => None
      case ResetCompleted => None
      case Greeted(_) => TokenAfter(d, evs[..|evs| - 1])
  }

  /** Running the state machine stores exactly the token `TokenAfter` predicts. */
  lemma {:induction false} RunToken(d: map<string, Json>, evs: seq<SessionEvent>)
    ensures (AccessTokenKey in Run(d, evs)) <==> TokenAfter(d, evs).Some?
    ensures AccessTokenKey in Run(d, evs) ==> Run(d, evs)[AccessTokenKey] == TokenAfter(d, evs).value
    decreases |evs|
  {
    if evs != [] {
      var front, last := evs[..|evs| - 1], evs[|evs| - 1];
      assert evs == front + [last];
      RunSnoc(d, front, last);
      RunToken(d, front);
    }
  }

  /** After a password reset neither the token nor the reset e-mail is left, whatever came before. */
  lemma ResetClearsFlow(d: map<string, Json>, evs: seq<SessionEvent>)
    ensures AccessTokenKey !in Run(d, evs + [ResetCompleted])
    ensures ResetEmailKey !in Run(d, evs + [ResetCompleted])
  {
    RunSnoc(d, evs, ResetCompleted);
  }

  /** Django's request.session, a dictionary updated in place. */
  class Session {
    var data: map<string, Json>

    constructor (initial: map<string, Json>)
      ensures data == initial
    {
      data := initial;
    }

    /** `session.get(key)`: None when the key is absent. */
    function Get(key: string): Json
      reads this
    {
      if key in data then data[key] else JNull
    }

    /** `session[key] = v` */
    method Set(key: string, v: Json)
      modifies this
      ensures data == old(data)[key := v]
    {
      data := data[key := v];
    }

    /** `del session[key]`, which raises KeyError for an absent key. */
    method Delete(key: string)
      requires key in data
      modifies this
      ensures data == old(data) - {key}
    {
      data := data - {key};
    }
  }
}
