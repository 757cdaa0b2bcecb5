/**
 * The auth gate of app.py: the before_request hook check_initial_setup
 * (app.py:87-100) and the HTTP Basic verify_password callback (app.py:71-84),
 * both reading the admin pair from the environment on every request.
 */
module Auth {

  import opened Options

  const UserKey: string := "ADMIN_USERNAME"
  const PassKey: string := "ADMIN_PASSWORD"

  /** A pair is configured when both values are set and non-empty; otherwise the dashboard is in setup mode. */
  predicate Configured(env: map<string, string>)
  {
    !Blank(Lookup(env, UserKey)) && !Blank(Lookup(env, PassKey))
  }

  /** The endpoints setup mode leaves open. */
  const SetupEndpoints: set<string> := {"credentials", "static", "stream", "internal_notify"}

  /** The endpoints decorated with @auth.login_required. */
  const ProtectedEndpoints: set<string> :=
    {"index", "status_api", "diagnostics", "logs", "wifi", "notifications", "backup_config",
     "update_system", "run_action", "drive_auth", "run_send_test_email"}

  /** request.endpoint is None when no route matched. */
  predicate InSetupList(endpoint: Option<string>)
  {
    endpoint.Some? && endpoint.value in SetupEndpoints
  }

  /** What verify_password returns: "temp_user", the username, or False. */
  datatype Identity = TempUser | User(name: string) | Refused

  function VerifyPassword(env: map<string, string>, endpoint: Option<string>, username: string, password: string): (id: Identity)
    ensures !Configured(env) ==> (id == TempUser <==> InSetupList(endpoint)) && (id != TempUser ==> id == Refused)
    ensures Configured(env) ==> id != TempUser
    ensures Configured(env) ==>
              (id.User? <==> Lookup(env, UserKey) == Some(username) && Lookup(env, PassKey) == Some(password))
    ensures id.User? ==> id.name == username && id.name != ""
  {
    if !Configured(env) then
      if InSetupList(endpoint) then TempUser else Refused
    else if Lookup(env, UserKey) == Some(username) && Lookup(env, PassKey) == Some(password) then User(username)
    else Refused
  }

  /** What check_initial_setup does: nothing, nothing but a warning flash, or a redirect to the credentials page. */
  datatype SetupAction = Proceed | ProceedWithWarning | RedirectToCredentials

  function CheckInitialSetup(env: map<string, string>, endpoint: Option<string>): (a: SetupAction)
    ensures a == RedirectToCredentials <==> !Configured(env) && !InSetupList(endpoint) && endpoint != Some("index")
    ensures a == ProceedWithWarning <==> !Configured(env) && endpoint == Some("index")
  {
    if !Configured(env) && !InSetupList(endpoint) then
      if endpoint == Some("index") then ProceedWithWarning else RedirectToCredentials
    else Proceed
  }

  /** How a request ends up: redirected by the hook, 404, refused with 401, or served (with the flash and the authenticated user). */
  datatype Access = Redirected | NotFound | Unauthorized | Served(warned: bool, user: Option<string>)

  /**
   * The hook, then routing, then login_required for the protected endpoints.
   * In setup mode everything but the setup endpoints and "index" is
   * redirected, and "index" is then refused by verify_password, so its
   * warning is never seen on a served page; a protected page is only ever
   * served to the stored pair.
   */
  function Gate(env: map<string, string>, endpoint: Option<string>, username: string, password: string): (r: Access)
    ensures r == Redirected <==> !Configured(env) && !InSetupList(endpoint) && endpoint != Some("index")
    ensures r == NotFound <==> Configured(env) && endpoint.None?
    ensures r == Unauthorized <==>
              endpoint.Some? && endpoint.value in ProtectedEndpoints &&
              if Configured(env) then !(Lookup(env, UserKey) == Some(username) && Lookup(env, PassKey) == Some(password))
              else endpoint == Some("index")
    ensures r.Served? ==> !r.warned
    ensures r.Served? && endpoint.value in ProtectedEndpoints ==> Configured(env) && r.user == Some(username)
    ensures r.Served? && endpoint.value !in ProtectedEndpoints ==> r.user == None
  {
    var action := CheckInitialSetup(env, endpoint);
    if action == RedirectToCredentials then Redirected
    else if endpoint.None? then NotFound
    else if endpoint.value in ProtectedEndpoints then
      match VerifyPassword(env, endpoint, username, password)
      case Refused => Unauthorized
      case TempUser => Served(action == ProceedWithWarning, Some("temp_user"))
      case User(name) => Served(action == ProceedWithWarning, Some(name))
    else Served(action == ProceedWithWarning, None)
  }

  /**
   * In setup mode no protected page is ever served: the hook lets "index"
   * through with its warning, but verify_password then refuses it, and every
   * other protected endpoint is redirected.
   */
  lemma SetupModeServesNoProtectedPage(env: map<string, string>, endpoint: string, username: string, password: string)
    requires !Configured(env) && endpoint in ProtectedEndpoints
    ensures Gate(env, Some(endpoint), username, password) ==
              if endpoint == "index" then Unauthorized else Redirected
  {
    assert endpoint !in SetupEndpoints;
  }

  /** Once configured, a protected page is served exactly to the stored pair, and to no one else. */
  lemma ConfiguredServesExactPair(env: map<string, string>, endpoint: string, username: string, password: string)
    requires Configured(env) && endpoint in ProtectedEndpoints
    ensures Gate(env, Some(endpoint), username, password).Served? <==>
              Lookup(env, UserKey) == Some(username) && Lookup(env, PassKey) == Some(password)
    ensures Gate(env, Some(endpoint), username, password).Served? ==>
              Gate(env, Some(endpoint), username, password) == Served(false, Some(username))
  {
  }

  /** The setup endpoints are reachable in either mode without credentials. */
  lemma SetupEndpointsAlwaysReachable(env: map<string, string>, endpoint: string, username: string, password: string)
    requires endpoint in SetupEndpoints
    ensures Gate(env, Some(endpoint), username, password) == Served(false, None)
  {
    assert endpoint !in ProtectedEndpoints;
  }
}
