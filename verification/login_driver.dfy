/** The login driver of src/js/login.ts: `checkEnvVars`, and `main`, which settles
    the browser on the login URL, stops if the page is already the portal's success
    page and otherwise injects one login script built from a template by
    first-occurrence placeholder replacement, waits, and checks the path again. */
module LoginDriver {
  import opened Base
  import opened Text
  import opened VirtualBrowser

  // ---------------------------------------------------------------------------
  // Environment

  type Env = map<string, string>

  const LoginUrlVar := "XDWLAN_LOGIN_URL"
  const UsernameVar := "XDWLAN_USERNAME"
  const PasswordVar := "XDWLAN_PASSWORD"
  const DomainVar := "XDWLAN_DOMAIN"

  /** The variables `checkEnvVars` demands, in the order it tests them. */
  const RequiredVars := [LoginUrlVar, UsernameVar, PasswordVar]

  /** `process.env[name]` is truthy: set and not empty. */
  predicate IsSet(env: Env, name: string) {
    name in env && env[name] != ""
  }

  /** `checkEnvVars`: the variable its error names, or `None` when it does not throw.
      It names the first required variable, in order, that is not set. */
  function CheckEnvVars(env: Env): (r: Option<string>)
    ensures r.None? <==> forall i :: 0 <= i < |RequiredVars| ==> IsSet(env, RequiredVars[i])
    ensures r.Some? ==> exists i :: (0 <= i < |RequiredVars| && r.value == RequiredVars[i]
      && !IsSet(env, RequiredVars[i])
      && forall j :: 0 <= j < i ==> IsSet(env, RequiredVars[j]))
  {
    assert RequiredVars[0] == LoginUrlVar && RequiredVars[1] == UsernameVar && RequiredVars[2] == PasswordVar;
    if !IsSet(env, LoginUrlVar) then Some(LoginUrlVar)
    else if !IsSet(env, UsernameVar) then Some(UsernameVar)
    else if !IsSet(env, PasswordVar) then Some(PasswordVar)
    else None
  }

  /** `XDWLAN_DOMAIN` is never demanded: setting, clearing or removing it changes nothing. */
  lemma DomainNeverRequired(env: Env, value: string)
    ensures CheckEnvVars(env[DomainVar := value]) == CheckEnvVars(env)
    ensures CheckEnvVars(env - {DomainVar}) == CheckEnvVars(env)
  {
  }

  // ---------------------------------------------------------------------------
  // The login script

  const UsernameToken := "username_placeholder"
  const PasswordToken := "password_placeholder"
  const DomainToken := "domain_placeholder"

  /** The template text before the username's opening quote: the function's
      opening with the flag set to "not yet", the click on a confirmation button
      when there is one, and the start of the username assignment. */
  const ScriptHead := ScriptOpening + ConfirmClick + UsernameLead

  const ScriptOpening :=
    "\n\t\t(function login() {\n"
    + "\t\t\twindow.xdwlan_login = "
    + "{ message: \"not yet\" };\n"

  const ConfirmClick := ConfirmTest + ConfirmPress

  const ConfirmTest :=
    "\t\t\tif (document.querySelector("
    + "\"div.control > button.btn-confirm\")) {\n"

  const ConfirmPress :=
    "\t\t\t\tdocument.querySelector("
    + "\"div.control > button.btn-confirm\")"
    + ".click();\n"
    + "\t\t\t}\n"

  const UsernameLead := "\t\t\tdocument.querySelector(" + "\"#username\").value = "

  /** The template text between the username's closing quote and the password's opening one. */
  const UsernameToPassword := ";\n\t\t\tdocument.querySelector(" + "\"#password\").value = "

  /** The template text between the password's closing quote and the domain's opening one. */
  const PasswordToDomain := ";\n\t\t\tdocument.querySelector(" + "\"#domain\").value = "

  /** The template text after the domain's closing quote. */
  const ScriptTail :=
    ";\n"
    + "\t\t\tdocument.querySelector("
    + "\"#login-account\").click();\n"
    + "\t\t\twindow.xdwlan_login = "
    + "{ message: \"ok\" };\n"
    + "\t\t})()\n\t"

  /** `s` between double quotes, as a JavaScript string literal in the template. */
  function Quote(s: string): string {
    ['"'] + s + ['"']
  }

  /** A script of the template's shape: fixed text around three quoted field values. */
  function FillWith(head: string, mid1: string, mid2: string, tail: string, username: string, password: string, domain: string): string {
    head + Quote(username) + mid1 + Quote(password) + mid2 + Quote(domain) + tail
  }

  /** The login script with the three field values written in literally. */
  function Fill(username: string, password: string, domain: string): string {
    FillWith(ScriptHead, UsernameToPassword, PasswordToDomain, ScriptTail, username, password, domain)
  }

  /** The template: the script filled with its three placeholders. */
  const LoginTemplate := Fill(UsernameToken, PasswordToken, DomainToken)

  /** The injected script: `LoginTemplate.replace(…)` for the username, then the
      password, then the domain, each at its first occurrence only. */
  function LoginScript(username: string, password: string, domain: string): string {
    ReplaceFirst(ReplaceFirst(ReplaceFirst(LoginTemplate, UsernameToken, username), PasswordToken, password), DomainToken, domain)
  }

  // ---------------------------------------------------------------------------
  // main

  /** `isOnBoard`: the portal's success page. */
  const SuccessPath := "/srun_portal_success"

  /** How `main` ends. `EnvError`, `GotoRejected` and `LoginThrew` reject `main`'s
      promise: `checkEnvVars` throws, a script step rejects inside `goto`, or the
      injected script throws. `Unsettled` stands for a redirect chain longer than
      the fuel, which the source would keep following. */
  datatype Status =
    | EnvError(variable: string)
    | GotoRejected(failure: Failure)
    | Unsettled
    | AutoLoggedIn
    | LoginThrew
    | LoginAttempted(onBoard: bool)

  datatype MainRun = MainRun(trace: seq<Action>, status: Status)

  /** `process.env.XDWLAN_DOMAIN ?? ""`. */
  function DomainOf(env: Env): string {
    if DomainVar in env then env[DomainVar] else ""
  }

  /** `main`, with `fuel` bounding the page loads of `goto` and `pathAfterLogin`
      the pathname the page is at after the injected script and the wait. */
  function Main(env: Env, site: Site, fuel: nat, pathAfterLogin: string): MainRun {
    match CheckEnvVars(env)
    case Some(v) => MainRun([], EnvError(v))
    case None =>
      var run := Goto(NewBrowser, site, env[LoginUrlVar], fuel);
      match run.halt
      case Rejected(f) => MainRun(run.trace, GotoRejected(f))
      case OutOfFuel => MainRun(run.trace, Unsettled)
      case Settled(page) =>
        if page.location.pathname == SuccessPath then MainRun(run.trace, AutoLoggedIn)
        else
          var script := LoginScript(env[UsernameVar], env[PasswordVar], DomainOf(env));
          if script in site.throwing then MainRun(run.trace + [Eval(script)], LoginThrew)
          else MainRun(run.trace + [Eval(script), Wait], LoginAttempted(pathAfterLogin == SuccessPath))
  }

  /** Whether the process running `main` exits with status 0: it does whenever
      `main`'s promise resolves, whether or not the login succeeded; a rejection
      is unhandled (`main()` is called without a `catch`), which ends the process
      with a non-zero status. */
  predicate ExitsSuccessfully(status: Status) {
    status.AutoLoggedIn? || status.LoginAttempted?
  }
}
