/** The sign-in form: submitting credentials, storing the user and choosing the landing page by role. */
module SignIn {
  import opened Wrappers

  /** The user record the server returns and the page stores. */
  datatype SessionUser = SessionUser(id: string, name: string, email: string, role: string)

  /**
   * How the login request ended: a non-ok status with the body's `detail`
   * (None when it is missing or empty), an ok status with the user, or a
   * thrown error (network failure, unreadable body) with its message.
   */
  datatype LoginResponse =
    | Rejected(detail: Option<string>)
    | Accepted(user: SessionUser)
    | Thrown(message: string)

  /** The landing page of each role; None for any other role. */
  function RouteFor(role: string): (r: Option<string>)
    ensures role == "customer" ==> r == Some("/customer")
    ensures role == "kitchen" ==> r == Some("/kitchen")
    ensures role == "waiter" ==> r == Some("/waiter")
    ensures role == "admin" ==> r == Some("/admin/dashboard")
    ensures r.Some? <==> role in {"customer", "kitchen", "waiter", "admin"}
  {
    if role == "customer" then Some("/customer")
    else if role == "kitchen" then Some("/kitchen")
    else if role == "waiter" then Some("/waiter")
    else if role == "admin" then Some("/admin/dashboard")
    else None
  }

  /** `data.detail || "Authentication failed"`. */
  function RejectionMessage(detail: Option<string>): (r: string)
    ensures detail.Some? && detail.value != "" ==> r == detail.value
    ensures detail.None? || detail.value == "" ==> r == "Authentication failed"
    ensures r != ""
  {
    if detail.Some? && detail.value != "" then detail.value else "Authentication failed"
  }

  /** The visible result of one submit. */
  datatype Outcome = Outcome(error: Option<string>, route: Option<string>, stored: Option<SessionUser>)

  /**
   * The user is stored as soon as the response is accepted, before the role
   * is looked at; an unknown role then fails with "Invalid role".
   */
  function SubmitOutcome(response: LoginResponse): (r: Outcome)
    ensures r.error.None? <==> r.route.Some?
    ensures r.route.Some? <==> response.Accepted? && RouteFor(response.user.role).Some?
    ensures r.stored.Some? <==> response.Accepted?
    ensures response.Accepted? ==> r.stored == Some(response.user)
    ensures response.Accepted? && RouteFor(response.user.role).None? ==> r.error == Some("Invalid role")
    ensures response.Rejected? ==> r.error == Some(RejectionMessage(response.detail))
    ensures response.Thrown? ==> r.error == Some(response.message)
  {
    match response
    case Rejected(detail) => Outcome(Some(RejectionMessage(detail)), None, None)
    case Thrown(message) => Outcome(Some(message), None, None)
    case Accepted(user) =>
      var route := RouteFor(user.role);
      if route.Some? then Outcome(None, route, Some(user))
      else Outcome(Some("Invalid role"), None, Some(user))
  }

  class AuthForm {
    var error: Option<string>
    var loading: bool
    var storedUser: Option<SessionUser>
    var route: Option<string>

    constructor()
      ensures error.None? && !loading && storedUser.None? && route.None?
    {
      error := None;
      loading := false;
      storedUser := None;
      route := None;
    }

    /**
     * `handleSubmit`: clears the error and sets loading, awaits the response,
     * then stores the user and navigates, or records the error; loading is
     * reset in every case. A rejected or failed submit keeps a previously
     * stored user.
     */
    method HandleSubmit(response: LoginResponse)
      modifies this
      ensures !loading
      ensures error == SubmitOutcome(response).error
      ensures route == (if SubmitOutcome(response).route.Some? then SubmitOutcome(response).route else old(route))
      ensures storedUser == (if response.Accepted? then Some(response.user) else old(storedUser))
    {
      error := None;
      loading := true;
      match response {
        case Rejected(detail) =>
          error := Some(if detail.Some? && detail.value != "" then detail.value else "Authentication failed");
        case Thrown(message) =>
          error := Some(message);
        case Accepted(user) =>
          storedUser := Some(user);
          var target := RouteFor(user.role);
          if target.Some? {
            route := target;
          } else {
            error := Some("Invalid role");
          }
      }
      loading := false;
    }
  }
}
