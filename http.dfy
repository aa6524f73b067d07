// What a view hands back to Django: a redirect to a named route, a rendered
// template with its context, or an uncaught exception (an HTTP 500), together
// with the flash messages it queued.

module Http {

  /** The named routes the views redirect to. */
  datatype Route =
    | Login
    | ForgotPassword
    | VerifyOtp(email: string)
    | ResetPassword
    | StudentDashboard
    | AdminDashboard

  datatype Level = Error | Warning | Success

  /** One entry of Django's messages framework. */
  datatype Message = Message(level: Level, text: string)

  /** The fixed figures admin_dashboard renders. */
  datatype AdminStats = AdminStats(totalProducts: int, totalBuyers: int, totalReservations: int, totalOrders: int)

  /** A template together with the context it is rendered with. */
  datatype Page =
    | RegisterPage(userType: string)
    | LoginPage
    | ForgotPasswordPage
    | VerifyOtpPage(email: string)
    | ResetPasswordPage
    | StudentDashboardPage(displayName: string, greeting: string)
    | AdminDashboardPage(displayName: string, greeting: string, stats: AdminStats)

  datatype Response =
    | Redirect(to: Route)
    | Render(page: Page)
    | Uncaught(exception: string)

  datatype Reply = Reply(response: Response, messages: seq<Message>)

  function RedirectTo(r: Route): Reply {
    Reply(Redirect(r), [])
  }

  function RenderWith(p: Page, m: seq<Message>): Reply {
    Reply(Render(p), m)
  }

  function ErrorMessage(text: string): seq<Message> {
    [Message(Error, text)]
  }
}
