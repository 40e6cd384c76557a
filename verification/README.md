# xdwlan-login, modelled in Dafny

xdwlan-login keeps a machine logged in to the Xidian University campus network.
A Rust supervisor probes connectivity. When the machine is offline, it finds the
portal's login URL in the page the captive network serves. It then starts a
JavaScript login program with the URL and the credentials in its environment.
That program drives a headless DOM (happy-dom) through the portal's pages,
following meta-refresh redirects and running the page scripts itself. If the
portal has not logged the machine in by itself, it injects one script that
fills in and submits the login form. The configuration file supplies the
credentials and a carrier domain suffix.

This project models three pieces of that decision logic as pure functions over
abstract inputs, and proves what they guarantee.

- `VirtualBrowser` and `VirtualBrowserFacts` (src/js/login.ts) model `goto`. It
  is a function from a `Site` to a trace of actions: `Navigate`, `Wait`, `Skip`,
  `Fetch` and `Eval`. A `Site` says what each URL loads to, what each script
  URL serves, and which script texts throw when evaluated. The model covers the meta-refresh scan with its
  `split(";url=", 2)[1]` cut, the redirect that pre-empts the page's scripts,
  head-then-body script order, and the remote/inline/empty decision of
  `evaluateScriptTag`. It also covers script URLs built as origin + `/` + src
  and blacklist suffix skipping. The source's redirect recursion has no bound,
  so `Goto` takes `fuel` and reports `OutOfFuel` when it is spent. The
  `MoreFuelSameRun` lemma shows that fuel changes nothing else.
- `LoginDriver` and `LoginDriverFacts` (src/js/login.ts) model `checkEnvVars`
  and `main`. `main` checks the success path, then injects the login template
  with the three placeholders replaced. Each replacement is JavaScript's
  first-occurrence `String.prototype.replace`, including its `$` patterns
  (`Text.ReplaceFirst`).
- `LoginTask` (src/tasks/login.rs) models several operations:
  - the regex `action="(https://w\.xidian\.edu\.cn[a-zA-Z0-9./_]+)"` as a
    leftmost string scan;
  - `get_login_url`'s five-attempt loop over an oracle of page responses;
  - `is_online`;
  - `login`, with the child process's outcome as an input.
- `Config` (src/config.rs) models `load_config`. The file read and the YAML
  parse are inputs; the domain check is modelled as written.
- `Pipeline` connects them: an accepted configuration flows through `login`'s
  child environment into the script `main` injects.

## Model

| member | source | states |
|---|---|---|
| VirtualBrowser.FindRefresh | src/js/login.ts:103-117 | the head child the scan stops at carries a redirect, and no earlier child does; none is found only when no child carries one |
| VirtualBrowser.UntilQuery | src/js/login.ts:72-76 | the script URL's path part is a prefix of `src` up to its first `?` or `#` and contains neither |
| VirtualBrowserFacts.RefreshTargetShape | src/js/login.ts:108-111 | a cut target is the text right after the first `;url=`, containing no `;url=`, and followed by the end or by a second `;url=` whose tail is dropped |
| VirtualBrowserFacts.RefreshTargetOfShape | src/js/login.ts:110 | conversely, every content of that shape yields exactly that target |
| VirtualBrowserFacts.RefreshTargetOfDelay | src/js/login.ts:110 | for a delay and a target that contain no `;`, `<delay>;url=<target>` yields the target, also when a further `;url=` and text follow it |
| VirtualBrowserFacts.NoSeparatorNoTarget | src/js/login.ts:108-111 | content without `;url=` yields no target, so the scan moves on |
| VirtualBrowserFacts.RedirectIsFirstRefresh | src/js/login.ts:103-113 | the first redirecting head child decides, and the URL is origin + `/` + its target |
| VirtualBrowserFacts.NoRedirectIff | src/js/login.ts:103-117 | a page does not redirect iff no head child carries a refresh target |
| VirtualBrowserFacts.RemoteWinsOverInline | src/js/login.ts:69-85 | a tag with a non-empty `src` is remote whatever its inline text, and its first action skips or fetches origin + `/` + src |
| VirtualBrowserFacts.ScriptTagNoOpIff | src/js/login.ts:69-89 | a script tag does nothing iff it has neither a non-empty `src` nor non-empty inline text |
| VirtualBrowserFacts.InlineEvaluated | src/js/login.ts:85-88 | a tag without `src` but with non-empty inline text evaluates exactly that text, once, and fails exactly when that text throws |
| VirtualBrowserFacts.EvaluateChildrenAppend | src/js/login.ts:120-129 | the head loop followed by the body loop is one walk over head + body children, and the body is reached only if no head script step failed |
| VirtualBrowserFacts.NonScriptsIgnored | src/js/login.ts:120-129 | children whose tag is not `SCRIPT` contribute no action: the walk equals the walk over the `SCRIPT` children alone |
| VirtualBrowserFacts.Scripts | src/js/login.ts:120-129 | the `SCRIPT` filter keeps exactly the children whose tag is `SCRIPT`: each one kept is such a child, and every such child is kept |
| VirtualBrowserFacts.ScriptsAppend | src/js/login.ts:120-129 | filtering head + body filters each part, so the kept children stay in document order |
| VirtualBrowserFacts.EvaluateChildrenFacts | src/js/login.ts:67-89 | every action concerns a script; no blacklisted script is fetched and only blacklisted ones are skipped; each fetched script is evaluated right after its fetch with the text served; a walk stops at its first failure, which is its last action: a failed fetch, or the evaluation of a throwing text, no earlier evaluation having thrown |
| VirtualBrowserFacts.EachRemoteScriptFetchedOnce | src/js/login.ts:72-84 | a walk without a failure fetches as many times as there are remote, non-blacklisted script tags |
| VirtualBrowserFacts.RemoteScriptsInOrder | src/js/login.ts:69-83 | a walk without a failure skips every blacklisted remote script and fetches every other one, at origin + `/` + src, once each and in document order, and skips or fetches nothing else |
| VirtualBrowserFacts.EvalsInOrder | src/js/login.ts:67-89 | a walk without a failure evaluates, in document order and once each, the served text of every remote, non-blacklisted script and the inline text of every script without `src` whose text is non-empty, and evaluates nothing else |
| VirtualBrowserFacts.EmptyBlacklistSkipsNothing | src/js/login.ts:26 | with the constructor's empty blacklist, no script is skipped |
| VirtualBrowserFacts.RedirectChainHops | src/js/login.ts:112-113 | the chain starts at the requested URL, each hop is the previous page's redirect, and it ends early only at a page that does not redirect |
| VirtualBrowserFacts.GotoFollowsChain | src/js/login.ts:97-134 | `goto` is a navigate-and-wait per hop of the chain, then, on the last page only, head and body scripts and a final wait; pages that redirect run no script |
| VirtualBrowserFacts.MoreFuelSameRun | src/js/login.ts:113 | any run that does not run out of fuel is the run every larger fuel gives |
| VirtualBrowserFacts.SelfRedirectNeverSettles | src/js/login.ts:112-113 | a page refreshing to itself is reloaded for every fuel: no settle, trace of navigations and waits only |
| Text.ReplaceFirstAt | src/js/login.ts:191-193 | a `$`-free replacement takes the place of the first occurrence only, and the text before and after it is kept as it was |
| Text.ReplaceFirstAbsent | src/js/login.ts:191-193 | a pattern that does not occur leaves the text unchanged |
| Text.SubstitutionOfPlainText | src/js/login.ts:191-193 | a replacement without `$` is inserted literally |
| LoginDriver.CheckEnvVars | src/js/login.ts:142-152 | passes iff the URL, username and password variables are all set and non-empty, and otherwise names the first of them, in that order, that is not |
| LoginDriver.DomainNeverRequired | src/js/login.ts:142-152 | setting, changing or removing the domain variable never changes the check |
| LoginDriverFacts.FixedTextTokenFree | src/js/login.ts:178-190 | the template's fixed text contains no placeholder, so the placeholders occur only in the three quoted fields |
| LoginDriverFacts.SubstituteFills | src/js/login.ts:191-193 | three first-occurrence replacements fill the three fields of a template of that shape, given `$`-free values none of which holds a later placeholder |
| LoginDriverFacts.LoginScriptCarriesCredentials | src/js/login.ts:177-193 | for placeholder-free, `$`-free credentials the injected script is the template with the three values written into their quoted fields, and contains no placeholder |
| LoginDriverFacts.PlaceholderInUsernameCapturesPassword | src/js/login.ts:191-192 | a username equal to the password placeholder receives the password, and the password field keeps its placeholder |
| LoginDriverFacts.MainOutcome | src/js/login.ts:156-201 | the process exits normally iff the environment check passes, `goto` settles, and the page is the success page or the injected script does not throw; an attempt is made iff it settles elsewhere and the script runs through, and is judged by the final path; nothing happens iff the check fails or no page load is allowed |
| LoginDriverFacts.InjectsOnlyOffBoard | src/js/login.ts:165-195 | `main` is `goto`'s trace plus, only when the settled path is not `/srun_portal_success`, one login script and, unless it throws, one wait |
| LoginDriverFacts.MissingDomainIsEmpty | src/js/login.ts:193 | an unset domain variable fills the domain field with the empty string |
| LoginTask.RunEnd | src/tasks/login.rs:53 | the end of the longest run of `[a-zA-Z0-9./_]` characters: all before it are in the class, the one at it is not |
| LoginTask.FirstMatch | src/tasks/login.rs:55 | the leftmost position where the pattern matches; none matches earlier |
| LoginTask.MatchAtShape | src/tasks/login.rs:52-56 | a match captures a URL that starts with `https://w.xidian.edu.cn` followed by one or more class characters, preceded by `action="` and closed by `"` |
| LoginTask.MatchAtOfShape | src/tasks/login.rs:52-56 | conversely, `action="`, such a URL and `"` at a position is a match there capturing exactly that URL |
| LoginTask.CaptureIsLeftmost | src/tasks/login.rs:55-56 | the captured URL is the one of the leftmost `action="<URL>"` occurrence |
| LoginTask.CapturedUrlIsPortalUrl | src/tasks/login.rs:51-56 | every URL an attempt yields has the portal URL shape |
| LoginTask.HostCheckRedundant | src/tasks/login.rs:51 | the host-name check before the regex never changes the result, since every match contains the host |
| LoginTask.GetLoginUrl | src/tasks/login.rs:43-62 | a client-build failure makes no request; otherwise one to five requests, all but the last served bodies without a URL; the last either failed (abort) or yielded the returned URL, or it was the fifth and "Login url not found." follows |
| LoginTask.IsOnline | src/tasks/login.rs:27-41 | online iff the probe got a response whose status is exactly 204 |
| LoginTask.Login | src/tasks/login.rs:65-84 | the program is started only after a URL was found, and with the URL of the first attempt that did not serve a body without one; the lookup error is the client error iff the client could not be built, "not found" iff all five attempts served bodies without a URL, and the request error iff an attempt failed before any URL was found; `Ok` iff the program exits with status 0; a spawn failure and any other exit are errors |
| LoginTask.ChildEnvCheck | src/tasks/login.rs:71-77 | the child's environment passes the login program's check iff username and password are non-empty, and carries the task's domain |
| Config.CheckDomain | src/config.rs:33-41 | accepted iff the domain is one of `""`, `@dx`, `@lt`, `@yd`; accepted configs are returned unchanged; others are rejected naming the domain |
| Config.LoadConfigAccepts | src/config.rs:18-41 | a config loads iff the file was read, parsed, and its defaulted domain is allowed; it is then the parsed config |
| Config.FailuresBeforeDomain | src/config.rs:18-31 | a missing file, read error or parse error is reported as such whatever the parser would give, and a domain error arises only after a successful parse |
| Config.AbsentDomainAccepted | src/config.rs:9-10 | a file without a domain loads, with the empty domain |
| Config.CredentialsNotInspected | src/config.rs:31-34 | the username and password never affect acceptance |
| Config.VariantsRejected | src/config.rs:33-40 | a domain with an upper-case letter or white space, such as `@DX`, is rejected |
| Pipeline.AllowedDomainPlain | src/config.rs:34 | every allowed domain is free of `$` and of placeholders, so it is written into the script literally |
| Pipeline.InjectedScriptOfEnv | src/js/login.ts:177-193 | when `main` injects, its trace holds the template filled literally with the environment's values |
| Pipeline.AcceptedConfigReachesScript | src/tasks/login.rs:71-77 | an accepted config with non-empty, placeholder-free, `$`-free credentials passes the login program's check, sends it to the URL found, and any injected script carries the configured values literally |

## Left out

- happy-dom is not modelled. `page.goto` and `waitUntilComplete` become a `Site` lookup and a `Wait` action; a navigation always lands on some page (`Site.blank` for unknown URLs), so happy-dom navigation errors are not modelled. Scripts that change the location or the document are not modelled either: each page's state is fixed by the `Site`. `page.evaluate` is an `Eval` action.
- `ResolveScript`: a script URL that does not parse is not modelled. `new URL` throws a TypeError when origin + `/` + src is not an absolute URL, for example under the opaque origin `null` of an `about:blank` page, and that error would reject `goto`; the model always resolves the URL, so `RemoteScriptsInOrder` and the other walk lemmas assume every page of the `Site` has an origin that parses.
- `new URL` normalisation is not modelled. A script's href is origin + `/` + src as built. Its pathname is `/` + src up to the first `?` or `#` (`UntilQuery`), without resolving `..`, percent-encoding or an absolute `src`.
- `fetchScript`'s request headers and the HTTP fetch are not modelled. A script URL missing from `Site.scripts` is a failed fetch.
- A failed script fetch or a throwing script evaluation rejects `goto` and therefore `main`, because the source catches neither; `main()` is called without a `catch`, so the process exits with a non-zero status. This differs from a per-script best-effort policy, and the model follows the code. Whether evaluating a text throws is an input, `Site.throwing`, fixed per text for the whole site rather than derived from the page the text runs on; this covers the injected script on a page without `#username`, for example.
- The redirect recursion has no depth bound in the source, and the model does not add one. `fuel` and `OutOfFuel` only bound the model; `SelfRedirectNeverSettles` shows that a self-refreshing page never settles.
- The `window.xdwlan_login` flag is set by the injected script but never read back. Success is judged only by the pathname, so the flag is not modelled.
- The effect of the injected script on the portal is not modelled. `main`'s `pathAfterLogin` parameter stands for the pathname after the script and the wait.
- Console logging in login.ts, login.rs and config.rs is not modelled.
- `LoginTask::run`, the supervision loop, is not modelled (src/tasks/login.rs:87-147). It is built on channel timeouts, a cross-thread quit signal and sleeps.
- Real HTTP (reqwest) is not modelled. Page responses are an oracle `nat -> Attempt`, and the probe result is a `Probe` value. The `is_online` client build can fail, and a failure there panics through `unwrap`; that panic is not modelled. `Regex::new` cannot fail on the fixed pattern, so that `?` is not modelled either.
- Process spawning is not modelled. The child's outcome is a `Child` input, and the program path from src/utils.rs is not modelled.
- src/utils.rs, src/logger.rs and env.d.ts are not part of this model. They cover OS path and registry access, log formatting, and type declarations.
- YAML parsing and file reading are inputs to `Config.LoadConfig`. Missing username or password fields are parse errors of the parser input. The missing-file message's path text is not modelled.
- `(?m)` in the regex has no effect on a pattern without `^` or `$`. The character class is ASCII, and strings are sequences of characters rather than UTF-8 bytes.
- The environment holds strings. An unset variable is a missing key, and `undefined`, which JavaScript's `replace` would write as "undefined", cannot arise after `checkEnvVars`.
