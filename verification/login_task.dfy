/** The login task of src/tasks/login.rs: finding the portal's login URL in the
    page a captive network serves instead of the probed site, deciding whether the
    machine is online, and `login`, which hands the URL and the credentials to the
    login script process.

    The network and the child process are inputs: `network(k)` is what the `k`-th
    page request returns, and `child` is what running the login program yields. */
module LoginTask {
  import opened Base
  import opened Text
  import LoginDriver

  // ---------------------------------------------------------------------------
  // The login URL pattern `action="(https://w\.xidian\.edu\.cn[a-zA-Z0-9./_]+)"`

  const ActionOpen := "action=\""
  const PortalHost := "https://w.xidian.edu.cn"
  const PortalMarker := "w.xidian.edu.cn"

  /** The character class `[a-zA-Z0-9./_]`. */
  predicate InUrlClass(c: char) {
    ('a' <= c <= 'z') || ('A' <= c <= 'Z') || ('0' <= c <= '9') || c == '.' || c == '/' || c == '_'
  }

  /** A URL the pattern can capture: the portal host and one or more class characters. */
  predicate IsPortalUrl(u: string) {
    |u| > |PortalHost| && u[..|PortalHost|] == PortalHost
    && forall k :: |PortalHost| <= k < |u| ==> InUrlClass(u[k])
  }

  /** The end of the longest run of class characters starting at `from`. */
  function RunEnd(s: string, from: nat): (r: nat)
    requires from <= |s|
    ensures from <= r <= |s|
    ensures forall k :: from <= k < r ==> InUrlClass(s[k])
    ensures r < |s| ==> !InUrlClass(s[r])
    decreases |s| - from
  {
    if from < |s| && InUrlClass(s[from]) then RunEnd(s, from + 1) else from
  }

  /** The URL captured by a match starting at index `i`. As `"` is not in the class,
      the greedy `+` can only stop at the end of the longest run, so a match exists
      exactly when that run is non-empty and is followed by `"`. */
  function MatchAt(s: string, i: nat): Option<string> {
    if !IsAt(s, ActionOpen + PortalHost, i) then None
    else
      var start := i + |ActionOpen + PortalHost|;
      var end := RunEnd(s, start);
      if start < end < |s| && s[end] == '"' then Some(s[i + |ActionOpen|..end]) else None
  }

  /** The leftmost index at or after `from` where a match starts. */
  function FirstMatch(s: string, from: nat): (r: Option<nat>)
    ensures r.Some? ==> from <= r.value <= |s| && MatchAt(s, r.value).Some?
    ensures forall k: nat :: from <= k && (r.None? || k < r.value) ==> MatchAt(s, k).None?
    decreases |s| + 1 - from
  {
    if from > |s| then None
    else if MatchAt(s, from).Some? then Some(from)
    else FirstMatch(s, from + 1)
  }

  /** `re.captures(&content)` and `cap["url"]`: the URL of the leftmost match. */
  function CaptureLoginUrl(s: string): Option<string> {
    match FirstMatch(s, 0)
    case None => None
    case Some(i) => MatchAt(s, i)
  }

  /** What one attempt makes of a page body: a URL only when the body mentions the
      portal host and the pattern matches. */
  function LoginUrlIn(body: string): Option<string> {
    if Contains(body, PortalMarker) then CaptureLoginUrl(body) else None
  }

  // ---------------------------------------------------------------------------
  // get_login_url

  /** The result of one page request. */
  datatype Attempt =
    | Served(body: string)  // the body text was read
    | SendFailed            // `send()` returned an error
    | BodyFailed            // `text()` returned an error

  datatype UrlError =
    | ClientError     // the HTTP client could not be built
    | RequestError    // an error propagated by `?` from `send` or `text`
    | UrlNotFound     // "Login url not found."

  const MaxAttempts := 5

  /** Attempt `k` served a body in which no URL was found. */
  predicate Missed(network: nat -> Attempt, k: nat) {
    network(k).Served? && LoginUrlIn(network(k).body).None?
  }

  /** Every attempt before the `k`-th served a body without a URL. */
  predicate MissedBefore(network: nat -> Attempt, k: int) {
    forall j: nat :: j < k ==> Missed(network, j)
  }

  /** `get_login_url`: once the HTTP client is built (`clientReady`), up to five
      page requests; the first body that yields a URL ends the loop with it, a
      failed request ends it with that error, and five bodies without a URL end it
      with `UrlNotFound`. `requests` counts the requests made. */
  method GetLoginUrl(clientReady: bool, network: nat -> Attempt) returns (result: Result<string, UrlError>, requests: nat)
    ensures !clientReady <==> result == Err(ClientError)
    ensures !clientReady ==> requests == 0
    ensures clientReady ==> 1 <= requests <= MaxAttempts
    ensures MissedBefore(network, requests - 1)
    ensures result.Ok? ==>
      && network(requests - 1).Served?
      && LoginUrlIn(network(requests - 1).body) == Some(result.value)
      && IsPortalUrl(result.value)
    ensures result == Err(RequestError) <==> clientReady && !network(requests - 1).Served?
    ensures result == Err(UrlNotFound) ==>
      && requests == MaxAttempts
      && network(requests - 1).Served? && LoginUrlIn(network(requests - 1).body).None?
  {
    requests := 0;
    if !clientReady {
      result := Err(ClientError);
      return;
    }
    for attempt := 0 to MaxAttempts
      invariant requests == attempt
      invariant MissedBefore(network, attempt)
    {
      requests := requests + 1;
      match network(attempt)
      case SendFailed =>
        result := Err(RequestError);
        return;
      case BodyFailed =>
        result := Err(RequestError);
        return;
      case Served(body) =>
        var url := LoginUrlIn(body);
        if url.Some? {
          CapturedUrlIsPortalUrl(body);
          result := Ok(url.value);
          return;
        }
    }
    assert Missed(network, MaxAttempts - 1);
    result := Err(UrlNotFound);
  }

  /** Every URL an attempt yields has the shape the pattern demands. */
  lemma CapturedUrlIsPortalUrl(body: string)
    requires LoginUrlIn(body).Some?
    ensures IsPortalUrl(LoginUrlIn(body).value)
  {
    var i := FirstMatch(body, 0).value;
    var u := MatchAt(body, i).value;
    MatchAtShape(body, i);
  }

  /** A match at `i` captures a portal URL `u`, with `action="` before it and `"`
      right after it. */
  lemma MatchAtShape(s: string, i: nat)
    requires MatchAt(s, i).Some?
    ensures IsPortalUrl(MatchAt(s, i).value)
    ensures IsAt(s, ActionOpen + MatchAt(s, i).value + "\"", i)
  {
    var u := MatchAt(s, i).value;
    var start := i + |ActionOpen + PortalHost|;
    var end := RunEnd(s, start);
    IsAtConcat(s, ActionOpen, PortalHost, i);
    assert u[..|PortalHost|] == s[i + |ActionOpen|..start];
    assert IsAt(s, u, i + |ActionOpen|);
    assert IsAt(s, "\"", end);
    IsAtConcat(s, ActionOpen, u, i);
    IsAtConcat(s, ActionOpen + u, "\"", i);
  }

  /** Conversely, `action="`, a portal URL and `"` at `i` make a match there that
      captures exactly that URL. */
  lemma MatchAtOfShape(s: string, i: nat, u: string)
    requires IsPortalUrl(u) && IsAt(s, ActionOpen + u + "\"", i)
    ensures MatchAt(s, i) == Some(u)
  {
    var start := i + |ActionOpen + PortalHost|;
    var stop := i + |ActionOpen| + |u|;
    IsAtConcat(s, ActionOpen + u, "\"", i);
    IsAtConcat(s, ActionOpen, u, i);
    assert s[i + |ActionOpen|..stop] == u;
    assert IsAt(s, PortalHost, i + |ActionOpen|) by {
      assert s[i + |ActionOpen|..start] == u[..|PortalHost|];
    }
    IsAtConcat(s, ActionOpen, PortalHost, i);
    forall k | start <= k < stop
      ensures InUrlClass(s[k])
    {
      assert s[k] == u[k - i - |ActionOpen|];
    }
    assert s[stop] == '"';
    var end := RunEnd(s, start);
    assert end == stop;
  }

  /** The captured URL is the one of the leftmost `action="<portal URL>"` in the body. */
  lemma CaptureIsLeftmost(s: string, i: nat, u: string)
    requires IsPortalUrl(u) && IsAt(s, ActionOpen + u + "\"", i)
    requires forall k: nat, v: string :: k < i && IsPortalUrl(v) ==> !IsAt(s, ActionOpen + v + "\"", k)
    ensures CaptureLoginUrl(s) == Some(u)
  {
    MatchAtOfShape(s, i, u);
    var r := FirstMatch(s, 0);
    assert r.Some? && r.value <= i;
    if r.value < i {
      MatchAtShape(s, r.value);
      assert false;
    }
  }

  /** The host check before the pattern never changes the outcome: every match
      contains the host. */
  lemma HostCheckRedundant(body: string)
    ensures LoginUrlIn(body) == CaptureLoginUrl(body)
  {
    var r := FirstMatch(body, 0);
    if r.Some? {
      MatchContainsHost(body, r.value);
    }
  }

  /** A match's opening text holds the host without its scheme. */
  lemma MatchContainsHost(s: string, i: nat)
    requires IsAt(s, ActionOpen + PortalHost, i)
    ensures IsAt(s, PortalMarker, i + |ActionOpen| + 8)
  {
    assert PortalHost == "https://" + PortalMarker;
    IsAtConcat(s, ActionOpen, PortalHost, i);
    IsAtConcat(s, "https://", PortalMarker, i + |ActionOpen|);
  }

  // ---------------------------------------------------------------------------
  // is_online

  /** The result of the connectivity probe request. */
  datatype Probe = Responded(status: nat) | Unreachable

  /** `is_online`: the probe succeeded with status 204 exactly. */
  function IsOnline(probe: Probe): (r: bool)
    ensures r <==> probe.Responded? && probe.status == 204
  {
    match probe
    case Unreachable => false
    case Responded(code) => code == 204
  }

  // ---------------------------------------------------------------------------
  // login

  datatype Task = Task(username: string, password: string, domain: string)

  /** What running the login program yields: it could not be started, it exited
      with a code, or it was ended by a signal (no code). */
  datatype Child = SpawnFailed | Exited(code: int) | Killed

  datatype LoginError =
    | UrlLookup(error: UrlError)
    | SpawnError
    | ChildFailed(child: Child)   // "Login process exited with code …"

  const NodeEnvVar := "NODE_ENV"

  /** The environment of the login program: the inherited one and the five variables `login` sets. */
  function ChildEnv(parent: map<string, string>, task: Task, url: string, debugBuild: bool): map<string, string> {
    parent[NodeEnvVar := if debugBuild then "development" else "production"]
      [LoginDriver.LoginUrlVar := url]
      [LoginDriver.UsernameVar := task.username]
      [LoginDriver.PasswordVar := task.password]
      [LoginDriver.DomainVar := task.domain]
  }

  /** `login`: look up the URL, and only then run the login program; `Ok` only
      when the program exited with status 0. `spawnedWith` is the URL the program
      received, `None` when it was never started. */
  method Login(task: Task, clientReady: bool, network: nat -> Attempt, child: Child) returns (result: Result<(), LoginError>, spawnedWith: Option<string>)
    ensures spawnedWith.None? <==> result.Err? && result.error.UrlLookup?
    ensures spawnedWith.Some? ==>
      && IsPortalUrl(spawnedWith.value)
      && exists k :: (0 <= k < MaxAttempts && MissedBefore(network, k)
           && network(k).Served? && LoginUrlIn(network(k).body) == spawnedWith)
    ensures !clientReady <==> result == Err(UrlLookup(ClientError))
    ensures result == Err(UrlLookup(UrlNotFound)) <==> clientReady && MissedBefore(network, MaxAttempts)
    ensures result == Err(UrlLookup(RequestError)) <==>
      clientReady && exists k :: (0 <= k < MaxAttempts && MissedBefore(network, k) && !network(k).Served?)
    ensures result.Ok? <==> spawnedWith.Some? && child == Exited(0)
    ensures result.Err? && spawnedWith.Some? ==> result.error == (if child == SpawnFailed then SpawnError else ChildFailed(child))
  {
    var url, requests := GetLoginUrl(clientReady, network);
    if clientReady {
      // The attempt that ended the lookup is the first that did not miss.
      var last := requests - 1;
      if url == Err(UrlNotFound) {
        assert MissedBefore(network, MaxAttempts) by {
          forall j: nat | j < MaxAttempts ensures Missed(network, j) {
            if j == last {
              assert network(last).Served? && LoginUrlIn(network(last).body).None?;
            }
          }
        }
        forall k: nat | k < MaxAttempts ensures network(k).Served? {
          assert Missed(network, k);
        }
      } else {
        if url.Ok? {
          assert LoginUrlIn(network(last).body).Some?;
        } else {
          assert url.error == RequestError;
          assert !network(last).Served? && MissedBefore(network, last);
        }
        assert !MissedBefore(network, MaxAttempts) by {
          assert !Missed(network, last);
        }
        forall k: nat | k < MaxAttempts && MissedBefore(network, k) && !Missed(network, k)
          ensures k == last
        {
          FirstNonMissUnique(network, last, k);
        }
      }
    }
    if url.Err? {
      return Err(UrlLookup(url.error)), None;
    }
    spawnedWith := Some(url.value);
    assert network(requests - 1).Served?;
    match child
    case SpawnFailed =>
      result := Err(SpawnError);
    case Exited(code) =>
      result := if code == 0 then Ok(()) else Err(ChildFailed(child));
    case Killed =>
      result := Err(ChildFailed(child));
  }

  /** At most one attempt is the first that did not miss. */
  lemma FirstNonMissUnique(network: nat -> Attempt, a: nat, b: nat)
    requires MissedBefore(network, a) && !Missed(network, a)
    requires MissedBefore(network, b) && !Missed(network, b)
    ensures a == b
  {
  }

  /** The login program's environment check passes exactly when the task's username
      and password are non-empty (the URL always is), and its domain fallback is
      never used: the domain field gets the task's domain. */
  lemma ChildEnvCheck(parent: map<string, string>, task: Task, url: string, debugBuild: bool)
    requires IsPortalUrl(url)
    ensures var env := ChildEnv(parent, task, url, debugBuild);
      && (LoginDriver.CheckEnvVars(env).None? <==> task.username != "" && task.password != "")
      && (task.username == "" ==> LoginDriver.CheckEnvVars(env) == Some(LoginDriver.UsernameVar))
      && LoginDriver.DomainOf(env) == task.domain
  {
    var env := ChildEnv(parent, task, url, debugBuild);
    assert LoginDriver.IsSet(env, LoginDriver.LoginUrlVar);
  }
}
