/**
 * The error responses the handlers send, each with the HTTP status and the
 * `error` text of its JSON body, and the Ok-or-error result of a handler.
 */
module Http {

  datatype Error =
    | MissingAuthHeader    // no Authorization header
    | InvalidAuthHeader    // no token after the scheme word
    | InvalidToken         // the token does not verify
    | Unauthenticated      // a gated handler reached without an identity
    | AdminRequired        // the admin gate refused a member
    | InvalidCredentials   // login: unknown e-mail or wrong password
    | InvalidTenant        // signup: unknown tenant slug
    | EmailExists          // signup or invite: e-mail already registered
    | SessionExpired       // the identity's tenant does not exist
    | TenantNotFound       // upgrade: unknown tenant slug
    | CannotUpgradeOther   // upgrade: the slug names another tenant
    | NotFound             // note lookup within the caller's tenant failed
    | PlanLimitReached     // free-plan member quota
    | InternalError        // a TypeError thrown inside a handler, answered by Express's default handler
  {
    /** The status code sent: a client error for every refusal, 500 only for the crash. */
    function Status(): (r: int)
      ensures 400 <= r < 600
      ensures r < 500 <==> !InternalError?
      ensures InternalError? ==> r == 500
    {
      match this
      case MissingAuthHeader => 401
      case InvalidAuthHeader => 401
      case InvalidToken => 401
      case Unauthenticated => 401
      case AdminRequired => 403
      case InvalidCredentials => 401
      case InvalidTenant => 400
      case EmailExists => 400
      case SessionExpired => 401
      case TenantNotFound => 404
      case CannotUpgradeOther => 403
      case NotFound => 404
      case PlanLimitReached => 402
      case InternalError => 500
    }

    /**
     * The `error` text of the JSON body. A crash is answered by Express's
     * default error handler instead, with an HTML page (a stack trace in
     * development) whose text is "Internal Server Error"; that is the text
     * given here.
     */
    function Message(): string {
      match this
      case MissingAuthHeader => "Missing Authorization header"
      case InvalidAuthHeader => "Invalid Authorization header"
      case InvalidToken => "Invalid token"
      case Unauthenticated => "Unauthenticated"
      case AdminRequired => "Admin role required"
      case InvalidCredentials => "Invalid credentials"
      case InvalidTenant => "Invalid tenant"
      case EmailExists => "Email already exists"
      case SessionExpired => "Session expired. Please sign in again."
      case TenantNotFound => "Tenant not found"
      case CannotUpgradeOther => "Cannot upgrade another tenant"
      case NotFound => "Not found"
      case PlanLimitReached => "Free plan limit reached for members. Upgrade to Pro."
      case InternalError => "Internal Server Error"
    }
  }

  datatype Result<+T> = Ok(value: T) | Err(error: Error)
}
