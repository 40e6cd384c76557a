/** How the three parts fit together: a configuration `load_config` accepts
    becomes the login task's credentials, `login` passes them to the login
    program's environment, and the program's `main` writes them into the
    injected script. */
module Pipeline {
  import opened Base
  import opened Text
  import opened VirtualBrowser
  import opened LoginDriver
  import opened LoginDriverFacts
  import Config
  import opened LoginTask

  /** Every allowed domain is short, free of `$` and holds no placeholder. */
  lemma AllowedDomainPlain(d: string)
    requires d in Config.AllowedDomains
    ensures TokenFree(d) && '$' !in d
  {
    assert |d| <= 3;
    assert !IsAt(d, UsernameToken, 0) && !IsAt(d, PasswordToken, 0) && !IsAt(d, DomainToken, 0);
  }

  /** The login program injects the template with the values of its username,
      password and domain variables written in literally, when they hold no
      placeholder and no `$`. */
  lemma InjectedScriptOfEnv(env: Env, site: Site, fuel: nat, pathAfterLogin: string)
    requires CheckEnvVars(env).None?
    requires TokenFree(env[UsernameVar]) && TokenFree(env[PasswordVar]) && TokenFree(DomainOf(env))
    requires '$' !in env[UsernameVar] && '$' !in env[PasswordVar] && '$' !in DomainOf(env)
    requires Main(env, site, fuel, pathAfterLogin).status.LoginAttempted?
    ensures Eval(Fill(env[UsernameVar], env[PasswordVar], DomainOf(env))) in Main(env, site, fuel, pathAfterLogin).trace
  {
    LoginScriptCarriesCredentials(env[UsernameVar], env[PasswordVar], DomainOf(env));
    InjectsOnlyOffBoard(env, site, fuel, pathAfterLogin);
    var run := Goto(NewBrowser, site, env[LoginUrlVar], fuel);
    var m := Main(env, site, fuel, pathAfterLogin);
    assert m.trace[|run.trace|] == Eval(LoginScript(env[UsernameVar], env[PasswordVar], DomainOf(env)));
  }

  /** For an accepted configuration with non-empty credentials that hold no
      placeholder and no `$`, the login program started by `login` passes its
      environment check, is sent to the URL found, and, when it injects the login
      script, injects the template with the three configured values written in
      literally. */
  lemma AcceptedConfigReachesScript(c: Config.Config, parent: map<string, string>, url: string, debugBuild: bool,
                                    site: Site, fuel: nat, pathAfterLogin: string)
    requires Config.CheckDomain(c).Ok?
    requires c.username != "" && c.password != ""
    requires TokenFree(c.username) && TokenFree(c.password)
    requires '$' !in c.username && '$' !in c.password
    requires IsPortalUrl(url)
    ensures var env := ChildEnv(parent, Task(c.username, c.password, c.domain), url, debugBuild);
      && CheckEnvVars(env).None?
      && env[LoginUrlVar] == url
      && (Main(env, site, fuel, pathAfterLogin).status.LoginAttempted? ==>
            Eval(Fill(c.username, c.password, c.domain)) in Main(env, site, fuel, pathAfterLogin).trace)
  {
    var env := ChildEnv(parent, Task(c.username, c.password, c.domain), url, debugBuild);
    ChildEnvCheck(parent, Task(c.username, c.password, c.domain), url, debugBuild);
    AllowedDomainPlain(c.domain);
    assert env[UsernameVar] == c.username && env[PasswordVar] == c.password && DomainOf(env) == c.domain;
    if Main(env, site, fuel, pathAfterLogin).status.LoginAttempted? {
      InjectedScriptOfEnv(env, site, fuel, pathAfterLogin);
    }
  }
}
