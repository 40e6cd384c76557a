/** What the login driver of src/js/login.ts guarantees: the environment check,
    what the injected script contains, and when it is injected. */
module LoginDriverFacts {
  import opened Base
  import opened Text
  import opened VirtualBrowser
  import opened LoginDriver

  // ---------------------------------------------------------------------------
  // Credential substitution

  /** No placeholder token occurs in `s`. */
  predicate TokenFree(s: string) {
    !Contains(s, UsernameToken) && !Contains(s, PasswordToken) && !Contains(s, DomainToken)
  }

  /** No placeholder token holds a double quote. */
  lemma TokensUnquoted()
    ensures '"' !in UsernameToken && '"' !in PasswordToken && '"' !in DomainToken
  {
  }

  /** The domain placeholder does not occur in the password placeholder. */
  lemma DomainTokenNotInPasswordToken()
    ensures !Contains(PasswordToken, DomainToken)
  {
    forall k: nat | k + |DomainToken| <= |PasswordToken|
      ensures !IsAt(PasswordToken, DomainToken, k)
    {
      assert k <= 2;
      assert PasswordToken[k] != 'd';
      assert PasswordToken[k..k + |DomainToken|][0] == PasswordToken[k];
    }
  }

  /** The fixed text of the template holds no placeholder: every token contains an
      `h`, and no fixed text does. */
  lemma FixedTextTokenFree()
    ensures TokenFree(ScriptHead) && TokenFree(UsernameToPassword) && TokenFree(PasswordToDomain) && TokenFree(ScriptTail)
  {
    HeadTokenFree();
    MiddleTokenFree();
    TailTokenFree();
  }

  lemma HeadTokenFree()
    ensures TokenFree(ScriptHead)
  {
    HeadLacksH();
    AbsentCharExcludes(ScriptHead, UsernameToken, 'h');
    AbsentCharExcludes(ScriptHead, PasswordToken, 'h');
    AbsentCharExcludes(ScriptHead, DomainToken, 'h');
  }

  /** The head text, part by part, holds no `h`. */
  lemma HeadLacksH()
    ensures 'h' !in ScriptHead
  {
    OpeningLacksH();
    ConfirmClickLacksH();
    assert 'h' !in UsernameLead;
  }

  lemma OpeningLacksH()
    ensures 'h' !in ScriptOpening
  {
    assert 'h' !in "\n\t\t(function login() {\n";
    assert 'h' !in "\t\t\twindow.xdwlan_login = ";
    assert 'h' !in "{ message: \"not yet\" };\n";
  }

  lemma ConfirmClickLacksH()
    ensures 'h' !in ConfirmClick
  {
    ConfirmTestLacksH();
    ConfirmPressLacksH();
  }

  lemma ConfirmTestLacksH()
    ensures 'h' !in ConfirmTest
  {
    assert 'h' !in "\t\t\tif (document.querySelector(";
    assert 'h' !in "\"div.control > button.btn-confirm\")) {\n";
  }

  lemma ConfirmPressLacksH()
    ensures 'h' !in ConfirmPress
  {
    assert 'h' !in "\t\t\t\tdocument.querySelector(";
    assert 'h' !in "\"div.control > button.btn-confirm\")";
    assert 'h' !in ".click();\n" + "\t\t\t}\n";
  }

  lemma MiddleTokenFree()
    ensures TokenFree(UsernameToPassword) && TokenFree(PasswordToDomain)
  {
    assert 'h' !in UsernameToPassword && 'h' !in PasswordToDomain;
    AbsentCharExcludes(UsernameToPassword, UsernameToken, 'h');
    AbsentCharExcludes(UsernameToPassword, PasswordToken, 'h');
    AbsentCharExcludes(UsernameToPassword, DomainToken, 'h');
    AbsentCharExcludes(PasswordToDomain, UsernameToken, 'h');
    AbsentCharExcludes(PasswordToDomain, PasswordToken, 'h');
    AbsentCharExcludes(PasswordToDomain, DomainToken, 'h');
  }

  lemma TailTokenFree()
    ensures TokenFree(ScriptTail)
  {
    assert 'h' !in ScriptTail;
    AbsentCharExcludes(ScriptTail, UsernameToken, 'h');
    AbsentCharExcludes(ScriptTail, PasswordToken, 'h');
    AbsentCharExcludes(ScriptTail, DomainToken, 'h');
  }

  /** `FillWith` spelled as fixed text and field values joined by quote characters. */
  lemma FillWithByQuotes(h: string, m1: string, m2: string, t: string, u: string, p: string, d: string)
    ensures FillWith(h, m1, m2, t, u, p, d) ==
      ((((((h + ['"'] + u) + ['"'] + m1) + ['"'] + p) + ['"'] + m2) + ['"'] + d) + ['"'] + t)
  {
  }

  /** Quotes separate: a token absent from every piece is absent from the filled script. */
  lemma FillWithExcludes(tok: string, h: string, m1: string, m2: string, t: string, u: string, p: string, d: string)
    requires '"' !in tok
    requires !Contains(h, tok) && !Contains(m1, tok) && !Contains(m2, tok) && !Contains(t, tok)
    requires !Contains(u, tok) && !Contains(p, tok) && !Contains(d, tok)
    ensures !Contains(FillWith(h, m1, m2, t, u, p, d), tok)
  {
    var q := '"';
    FillWithByQuotes(h, m1, m2, t, u, p, d);
    var s1 := h + [q] + u;
    NoOccurrenceAcross(h, q, u, tok);
    var s2 := s1 + [q] + m1;
    NoOccurrenceAcross(s1, q, m1, tok);
    var s3 := s2 + [q] + p;
    NoOccurrenceAcross(s2, q, p, tok);
    var s4 := s3 + [q] + m2;
    NoOccurrenceAcross(s3, q, m2, tok);
    var s5 := s4 + [q] + d;
    NoOccurrenceAcross(s4, q, d, tok);
    NoOccurrenceAcross(s5, q, t, tok);
  }

  /** Replacing one field's placeholder when the text before its opening quote is
      free of that placeholder. */
  lemma ReplaceField(before: string, tok: string, after: string, value: string)
    requires '"' !in tok
    requires !Contains(before, tok) && '$' !in value
    ensures ReplaceFirst(before + ['"'] + tok + after, tok, value) == before + ['"'] + value + after
  {
    ReplaceAfterSeparator(before, '"', tok, after, value);
  }

  /** The three replacements of `main`, for tokens `ut`, `pt` and `dt`, on any text. */
  function Substitute(template: string, ut: string, pt: string, dt: string, u: string, p: string, d: string): string {
    ReplaceFirst(ReplaceFirst(ReplaceFirst(template, ut, u), pt, p), dt, d)
  }

  /** Replacing the username field's token. */
  lemma FillUsername(h: string, m1: string, m2: string, t: string, ut: string, p: string, d: string, u: string)
    requires '"' !in ut && !Contains(h, ut) && '$' !in u
    ensures ReplaceFirst(FillWith(h, m1, m2, t, ut, p, d), ut, u) == FillWith(h, m1, m2, t, u, p, d)
  {
    var tail := ['"'] + m1 + Quote(p) + m2 + Quote(d) + t;
    FillWithAroundUsername(h, m1, m2, t, ut, p, d);
    FillWithAroundUsername(h, m1, m2, t, u, p, d);
    ReplaceField(h, ut, tail, u);
  }

  /** `FillWith` split around the username field's opening quote. */
  lemma FillWithAroundUsername(h: string, m1: string, m2: string, t: string, u: string, p: string, d: string)
    ensures FillWith(h, m1, m2, t, u, p, d) == h + ['"'] + u + (['"'] + m1 + Quote(p) + m2 + Quote(d) + t)
  {
    var tail := ['"'] + m1 + Quote(p) + m2 + Quote(d) + t;
    assert Quote(u) + m1 + Quote(p) + m2 + Quote(d) + t == ['"'] + u + tail;
  }

  /** `FillWith` split around the password field's opening quote. */
  lemma FillWithAroundPassword(h: string, m1: string, m2: string, t: string, u: string, p: string, d: string)
    ensures FillWith(h, m1, m2, t, u, p, d) == (h + ['"'] + u + ['"'] + m1) + ['"'] + p + (['"'] + m2 + ['"'] + d + ['"'] + t)
  {
    var x := h + ['"'] + u + ['"'] + m1;
    var y := ['"'] + m2 + ['"'] + d + ['"'] + t;
    calc {
      FillWith(h, m1, m2, t, u, p, d);
      h + Quote(u) + m1 + Quote(p) + m2 + Quote(d) + t;
      { assert h + Quote(u) + m1 == x; }
      x + Quote(p) + m2 + Quote(d) + t;
      { assert Quote(p) + m2 + Quote(d) + t == ['"'] + p + y; }
      x + ['"'] + p + y;
    }
  }

  /** Replacing the password field's token. */
  lemma FillPassword(h: string, m1: string, m2: string, t: string, u: string, pt: string, d: string, p: string)
    requires '"' !in pt && !Contains(h, pt) && !Contains(u, pt) && !Contains(m1, pt) && '$' !in p
    ensures ReplaceFirst(FillWith(h, m1, m2, t, u, pt, d), pt, p) == FillWith(h, m1, m2, t, u, p, d)
  {
    var before1 := h + ['"'] + u;
    var before := before1 + ['"'] + m1;
    var tail := ['"'] + m2 + ['"'] + d + ['"'] + t;
    FillWithAroundPassword(h, m1, m2, t, u, pt, d);
    FillWithAroundPassword(h, m1, m2, t, u, p, d);
    NoOccurrenceAcross(h, '"', u, pt);
    NoOccurrenceAcross(before1, '"', m1, pt);
    ReplaceField(before, pt, tail, p);
  }

  /** Replacing the domain field's token. */
  lemma FillDomain(h: string, m1: string, m2: string, t: string, u: string, p: string, dt: string, d: string)
    requires '"' !in dt && '$' !in d
    requires !Contains(h, dt) && !Contains(u, dt) && !Contains(m1, dt) && !Contains(p, dt) && !Contains(m2, dt)
    ensures ReplaceFirst(FillWith(h, m1, m2, t, u, p, dt), dt, d) == FillWith(h, m1, m2, t, u, p, d)
  {
    var before1 := h + ['"'] + u;
    var before2 := before1 + ['"'] + m1;
    var before3 := before2 + ['"'] + p;
    var before := before3 + ['"'] + m2;
    var tail := ['"'] + t;
    FillWithByQuotes(h, m1, m2, t, u, p, dt);
    assert FillWith(h, m1, m2, t, u, p, dt) == (before + ['"'] + dt) + ['"'] + t;
    assert (before + ['"'] + dt) + ['"'] + t == before + ['"'] + dt + tail;
    NoOccurrenceAcross(h, '"', u, dt);
    NoOccurrenceAcross(before1, '"', m1, dt);
    NoOccurrenceAcross(before2, '"', p, dt);
    NoOccurrenceAcross(before3, '"', m2, dt);
    ReplaceField(before, dt, tail, d);
    FillWithByQuotes(h, m1, m2, t, u, p, d);
    assert before + ['"'] + d + tail == (before + ['"'] + d) + ['"'] + t;
  }

  /** On a template of the login script's shape, values that the later tokens do not
      occur in, and that hold no `$`, land in their own fields. */
  lemma SubstituteFills(h: string, m1: string, m2: string, t: string, ut: string, pt: string, dt: string, u: string, p: string, d: string)
    requires '"' !in ut && '"' !in pt && '"' !in dt
    requires !Contains(h, ut)
    requires !Contains(h, pt) && !Contains(u, pt) && !Contains(m1, pt)
    requires !Contains(h, dt) && !Contains(u, dt) && !Contains(m1, dt) && !Contains(p, dt) && !Contains(m2, dt)
    requires '$' !in u && '$' !in p && '$' !in d
    ensures Substitute(FillWith(h, m1, m2, t, ut, pt, dt), ut, pt, dt, u, p, d) == FillWith(h, m1, m2, t, u, p, d)
  {
    FillUsername(h, m1, m2, t, ut, pt, dt, u);
    FillPassword(h, m1, m2, t, u, pt, dt, p);
    FillDomain(h, m1, m2, t, u, p, dt, d);
  }

  /** For credentials that contain no placeholder token and no `$`, the injected
      script is the template with each credential written literally into its
      field, and no placeholder is left in it. */
  lemma LoginScriptCarriesCredentials(u: string, p: string, d: string)
    requires TokenFree(u) && TokenFree(p) && TokenFree(d)
    requires '$' !in u && '$' !in p && '$' !in d
    ensures LoginScript(u, p, d) == Fill(u, p, d)
    ensures TokenFree(LoginScript(u, p, d))
  {
    LoginScriptFills(u, p, d);
    FillTokenFree(u, p, d);
  }

  /** The template filled with token-free values holds no token. */
  lemma FillTokenFree(u: string, p: string, d: string)
    requires TokenFree(u) && TokenFree(p) && TokenFree(d)
    ensures TokenFree(Fill(u, p, d))
  {
    FixedTextTokenFree();
    FilledTokenFree(ScriptHead, UsernameToPassword, PasswordToDomain, ScriptTail, u, p, d);
  }

  /** Filling token-free text with token-free values leaves no token. */
  lemma FilledTokenFree(h: string, m1: string, m2: string, t: string, u: string, p: string, d: string)
    requires TokenFree(h) && TokenFree(m1) && TokenFree(m2) && TokenFree(t)
    requires TokenFree(u) && TokenFree(p) && TokenFree(d)
    ensures TokenFree(FillWith(h, m1, m2, t, u, p, d))
  {
    TokensUnquoted();
    FillWithExcludes(UsernameToken, h, m1, m2, t, u, p, d);
    FillWithExcludes(PasswordToken, h, m1, m2, t, u, p, d);
    FillWithExcludes(DomainToken, h, m1, m2, t, u, p, d);
  }

  /** The three replacements fill the template's three fields. */
  lemma LoginScriptFills(u: string, p: string, d: string)
    requires TokenFree(u) && TokenFree(p) && TokenFree(d)
    requires '$' !in u && '$' !in p && '$' !in d
    ensures LoginScript(u, p, d) == Fill(u, p, d)
  {
    FixedTextTokenFree();
    TokensUnquoted();
    SubstituteFills(ScriptHead, UsernameToPassword, PasswordToDomain, ScriptTail, UsernameToken, PasswordToken, DomainToken, u, p, d);
  }

  /** Without the token-free condition the substitution is not injective: a username
      that spells the password placeholder receives the password, and the password
      field keeps its placeholder. */
  lemma PlaceholderInUsernameCapturesPassword()
    ensures LoginScript(PasswordToken, "secret", "") == Fill("secret", PasswordToken, "")
  {
    var h, m1, m2, t := ScriptHead, UsernameToPassword, PasswordToDomain, ScriptTail;
    FixedTextTokenFree();
    TokensUnquoted();
    DomainTokenNotInPasswordToken();
    assert 'h' !in "secret";
    AbsentCharExcludes("secret", DomainToken, 'h');
    FillUsername(h, m1, m2, t, UsernameToken, PasswordToken, DomainToken, PasswordToken);
    // The password replacement hits the copy now standing in the username field,
    // as if the template had the password token in both fields.
    var both := FillWith(h, m1, m2, t, PasswordToken, PasswordToken, DomainToken);
    FillUsername(h, m1, m2, t, PasswordToken, PasswordToken, DomainToken, "secret");
    FillDomain(h, m1, m2, t, "secret", PasswordToken, DomainToken, "");
  }

  // ---------------------------------------------------------------------------
  // main

  /** How `main`'s outcome follows from what it calls: the process exits normally
      exactly when the environment check passes, `goto` settles, and the page is
      the success page or the injected script does not throw; an attempt is made
      exactly when it settles elsewhere and the script runs through, and it is
      judged by the path alone. Nothing at all happens exactly when the check
      fails (or no page load is allowed). */
  lemma MainOutcome(env: Env, site: Site, fuel: nat, pathAfterLogin: string)
    ensures var m := Main(env, site, fuel, pathAfterLogin);
      var ok := CheckEnvVars(env).None?;
      var run := Goto(NewBrowser, site, if LoginUrlVar in env then env[LoginUrlVar] else "", fuel);
      var offBoard := run.halt.Settled? && run.halt.page.location.pathname != SuccessPath;
      var script := LoginScript(if UsernameVar in env then env[UsernameVar] else "",
                                if PasswordVar in env then env[PasswordVar] else "", DomainOf(env));
      && (ExitsSuccessfully(m.status) <==> ok && run.halt.Settled? && (!offBoard || script !in site.throwing))
      && (m.status.LoginAttempted? <==> ok && offBoard && script !in site.throwing)
      && (m.status.LoginAttempted? ==> (m.status.onBoard <==> pathAfterLogin == SuccessPath))
      && (m.trace == [] <==> !ok || fuel == 0)
  {
  }

  /** `main` performs `goto`'s actions and then at most two more: the login script
      and, unless it throws, a wait, exactly when `goto` settled on a page other
      than the success page. So the script is injected at most once and never on
      the success page. */
  lemma InjectsOnlyOffBoard(env: Env, site: Site, fuel: nat, pathAfterLogin: string)
    requires CheckEnvVars(env).None?
    ensures var run := Goto(NewBrowser, site, env[LoginUrlVar], fuel);
      var m := Main(env, site, fuel, pathAfterLogin);
      var script := LoginScript(env[UsernameVar], env[PasswordVar], DomainOf(env));
      && |run.trace| <= |m.trace| <= |run.trace| + 2
      && m.trace[..|run.trace|] == run.trace
      && (|m.trace| > |run.trace| <==> run.halt.Settled? && run.halt.page.location.pathname != SuccessPath)
      && (|m.trace| > |run.trace| ==>
            m.trace[|run.trace|..] == if script in site.throwing then [Eval(script)] else [Eval(script), Wait])
  {
  }

  /** An unset `XDWLAN_DOMAIN` fills the domain field with the empty string. */
  lemma MissingDomainIsEmpty(env: Env, site: Site, fuel: nat, pathAfterLogin: string)
    requires CheckEnvVars(env).None? && DomainVar !in env
    requires var m := Main(env, site, fuel, pathAfterLogin); m.status.LoginAttempted?
    requires TokenFree(env[UsernameVar]) && TokenFree(env[PasswordVar])
    requires '$' !in env[UsernameVar] && '$' !in env[PasswordVar]
    ensures Eval(Fill(env[UsernameVar], env[PasswordVar], "")) in Main(env, site, fuel, pathAfterLogin).trace
  {
    assert !IsAt("", UsernameToken, 0) && !IsAt("", PasswordToken, 0) && !IsAt("", DomainToken, 0);
    LoginScriptCarriesCredentials(env[UsernameVar], env[PasswordVar], "");
    var run := Goto(NewBrowser, site, env[LoginUrlVar], fuel);
    var m := Main(env, site, fuel, pathAfterLogin);
    assert m.trace[|run.trace|] == Eval(Fill(env[UsernameVar], env[PasswordVar], ""));
  }
}
