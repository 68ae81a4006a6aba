/** The login page (src/components/LoginPage.js): checking the shape of the
    login response, storing the session, and sending each role to its
    dashboard. */
module LoginPage {
  import opened Common

  const UnknownRoleMessage: string := "Unknown user role"
  const LoginFallback: string := "Invalid credentials. Please try again."
  const DashboardSuffix: string := "-dashboard"

  /** The roles `redirectBasedOnRole` knows, in the order it tests them. */
  const RoutedRoles: seq<string> := ["lawyer", "bailiff", "police", "judge", "foreinsic"]

  /** `/<name>-dashboard`: each literal route of `redirectBasedOnRole` is
      this string for its role's name. */
  function DashboardRoute(name: string): (r: string)
    ensures |r| == |name| + 1 + |DashboardSuffix|
    ensures r[0] == '/' && r[1..|r| - |DashboardSuffix|] == name
    ensures r[|r| - |DashboardSuffix|..] == DashboardSuffix
  {
    "/" + name + DashboardSuffix
  }

  /** `redirectBasedOnRole` (lines 24-38) as its table of routes; `None`
      is the "Unknown user role" branch. Every route is the role's own
      dashboard. */
  function RouteFor(role: string): (r: Option<string>)
    ensures r.Some? <==> role in RoutedRoles
    ensures r.Some? ==> r.value == DashboardRoute(role)
  {
    if role == "lawyer" then Some(DashboardRoute("lawyer"))
    else if role == "bailiff" then Some(DashboardRoute("bailiff"))
    else if role == "police" then Some(DashboardRoute("police"))
    else if role == "judge" then Some(DashboardRoute("judge"))
    else if role == "foreinsic" then Some(DashboardRoute("foreinsic"))
    else
      assert role !in RoutedRoles;
      None
  }

  /** Different roles are sent to different places. */
  lemma RoutesAreDistinct(a: string, b: string)
    requires RouteFor(a).Some? && RouteFor(a) == RouteFor(b)
    ensures a == b
  {
    var ra := DashboardRoute(a);
    assert ra[1..|ra| - |DashboardSuffix|] == a;
  }

  /** The body of the login response; `""` and `false` stand for the
      falsy or missing fields. */
  datatype LoginData = LoginData(success: bool, jwtToken: string, role: string)

  /** How `POST /login` ended: an answer (with `data`, or without), or a
      throw carrying `err.response.data.msg` (`""` when absent). */
  datatype LoginReply =
    | LoginAnswered(data: Option<LoginData>)
    | LoginThrew(msg: string)

  /** The check at lines 56-63. */
  predicate WellFormed(reply: LoginReply) {
    && reply.LoginAnswered? && reply.data.Some?
    && reply.data.value.success && reply.data.value.jwtToken != "" && reply.data.value.role != ""
  }

  /** The error once the login settled: the catch (lines 76-78) takes the
      backend's `msg`, and a malformed answer, which throws a plain Error,
      gets the default; a stored session gets the redirect's verdict. */
  function LoginError(reply: LoginReply): (r: string)
    ensures WellFormed(reply) ==> (r == "" <==> RouteFor(reply.data.value.role).Some?)
    ensures WellFormed(reply) && r != "" ==> r == UnknownRoleMessage
    ensures !WellFormed(reply) ==> r != ""
    ensures reply.LoginAnswered? && !WellFormed(reply) ==> r == LoginFallback
    ensures reply.LoginThrew? && reply.msg != "" ==> r == reply.msg
    ensures reply.LoginThrew? && reply.msg == "" ==> r == LoginFallback
  {
    if WellFormed(reply) then (if RouteFor(reply.data.value.role).Some? then "" else UnknownRoleMessage)
    else if reply.LoginThrew? then OrElse(reply.msg, LoginFallback)
    else LoginFallback
  }

  class Login {
    var email: string
    var password: string
    var error: string
    var isLoading: bool
    var storage: Storage
    /** Where the router was sent, if anywhere. */
    var location: Option<string>

    constructor (saved: Storage)
      ensures email == "" && password == "" && error == "" && !isLoading
      ensures storage == saved && location == None
    {
      email := "";
      password := "";
      error := "";
      isLoading := false;
      storage := saved;
      location := None;
    }

    /** Typing in the email field (line 157). */
    method SetEmail(value: string)
      modifies this
      ensures email == value
      ensures password == old(password) && error == old(error) && isLoading == old(isLoading)
      ensures storage == old(storage) && location == old(location)
    {
      email := value;
    }

    /** Typing in the password field (line 188). */
    method SetPassword(value: string)
      modifies this
      ensures password == value
      ensures email == old(email) && error == old(error) && isLoading == old(isLoading)
      ensures storage == old(storage) && location == old(location)
    {
      password := value;
    }

    /** `redirectBasedOnRole` (lines 24-38): navigate to the role's route or
        report an unknown role. */
    method RedirectBasedOnRole(role: string)
      modifies this
      ensures RouteFor(role).Some? ==> location == RouteFor(role) && error == old(error)
      ensures RouteFor(role).None? ==> location == old(location) && error == UnknownRoleMessage
      ensures email == old(email) && password == old(password) && isLoading == old(isLoading)
      ensures storage == old(storage)
    {
      var route := RouteFor(role);
      if route.Some? {
        location := route;
      } else {
        error := UnknownRoleMessage;
      }
    }

    /** `handleLogin` (lines 40-82): clear the error, ask the backend, and
        only for a well-formed answer store the token, the role and the
        email, in that order, before redirecting. Anything else leaves the
        storage and the location alone and shows an error. */
    method HandleLogin(reply: LoginReply)
      modifies this
      ensures !isLoading
      ensures error == LoginError(reply)
      ensures WellFormed(reply) ==>
        && storage == old(storage)["token" := reply.data.value.jwtToken]["role" := reply.data.value.role]["email" := old(email)]
        && location == (if RouteFor(reply.data.value.role).Some? then RouteFor(reply.data.value.role) else old(location))
      ensures !WellFormed(reply) ==> storage == old(storage) && location == old(location)
      ensures email == old(email) && password == old(password)
    {
      isLoading := true;
      error := "";
      if WellFormed(reply) {
        var data := reply.data.value;
        storage := storage["token" := data.jwtToken];
        storage := storage["role" := data.role];
        storage := storage["email" := email];
        RedirectBasedOnRole(data.role);
      } else if reply.LoginThrew? {
        error := OrElse(reply.msg, LoginFallback);
      } else {
        error := LoginFallback;
      }
      isLoading := false;
    }
  }
}
