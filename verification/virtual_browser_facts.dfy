/** What `VirtualBrowser.goto` guarantees: how a meta-refresh target is cut out of
    its `content`, which head child wins, that a redirect short-circuits the page's
    scripts, that scripts run head-then-body in document order, how remote, inline
    and empty script tags are told apart, and how the blacklist and the fetches behave. */
module VirtualBrowserFacts {
  import opened Base
  import opened Text
  import opened VirtualBrowser

  // ---------------------------------------------------------------------------
  // The `split(";url=", 2)[1]` target

  /** A target cut from `content` is the text right after the first `;url=`, up to
      the next `;url=` or the end: whatever follows a second separator is dropped. */
  lemma RefreshTargetShape(content: string) returns (before: string, after: string)
    requires RefreshTarget(content).Some?
    ensures var t := RefreshTarget(content).value;
      && content == before + RefreshSeparator + t + after
      && (forall k: nat :: k < |before| ==> !IsAt(content, RefreshSeparator, k))
      && (forall k: nat :: |before| + |RefreshSeparator| <= k < |before| + |RefreshSeparator| + |t| ==> !IsAt(content, RefreshSeparator, k))
      && (after == [] || IsAt(after, RefreshSeparator, 0))
  {
    var i := IndexOf(content, RefreshSeparator, 0).value;
    var start := i + |RefreshSeparator|;
    before := content[..i];
    assert content[i..start] == RefreshSeparator;
    match IndexOf(content, RefreshSeparator, start)
    case None =>
      after := [];
      assert content == content[..i] + content[i..start] + content[start..];
    case Some(j) =>
      after := content[j..];
      assert content == content[..i] + content[i..start] + content[start..j] + content[j..];
      assert after[..|RefreshSeparator|] == content[j..j + |RefreshSeparator|];
  }

  /** Conversely, any `content` of that shape yields exactly that target. */
  lemma RefreshTargetOfShape(before: string, t: string, after: string)
    requires var content := before + RefreshSeparator + t + after;
      && (forall k: nat :: k < |before| ==> !IsAt(content, RefreshSeparator, k))
      && (forall k: nat :: |before| + |RefreshSeparator| <= k < |before| + |RefreshSeparator| + |t| ==> !IsAt(content, RefreshSeparator, k))
      && (after == [] || IsAt(after, RefreshSeparator, 0))
    ensures RefreshTarget(before + RefreshSeparator + t + after) == Some(t)
  {
    var content := before + RefreshSeparator + t + after;
    var i := |before|;
    var start := i + |RefreshSeparator|;
    assert content[i..start] == RefreshSeparator;
    assert IsAt(content, RefreshSeparator, i);
    assert IndexOf(content, RefreshSeparator, 0) == Some(i);
    if after == [] {
      assert IndexOf(content, RefreshSeparator, start).None?;
      assert content[start..] == t;
    } else {
      var j := start + |t|;
      assert content[j..j + |RefreshSeparator|] == after[..|RefreshSeparator|];
      assert IsAt(content, RefreshSeparator, j);
      assert IndexOf(content, RefreshSeparator, start) == Some(j);
      assert content[start..j] == t;
    }
  }

  /** The usual `"<delay>;url=<target>"` content redirects to `<target>`, and a second
      `;url=` cuts the target short (the split limit of 2 drops the rest). */
  lemma RefreshTargetOfDelay(delay: string, t: string, more: string)
    requires ';' !in delay && ';' !in t
    ensures RefreshTarget(delay + RefreshSeparator + t) == Some(t)
    ensures RefreshTarget(delay + RefreshSeparator + t + (RefreshSeparator + more)) == Some(t)
  {
    var sep := RefreshSeparator;
    forall after: string | after == [] || IsAt(after, sep, 0)
      ensures RefreshTarget(delay + sep + t + after) == Some(t)
    {
      var content := delay + sep + t + after;
      forall k: nat | k < |delay| || |delay| + |sep| <= k < |delay| + |sep| + |t|
        ensures !IsAt(content, sep, k)
      {
        if k < |delay| {
          assert content[k] == delay[k];
        } else {
          assert content[k] == t[k - |delay| - |sep|];
        }
        assert k + |sep| > |content| || content[k..k + |sep|][0] == content[k];
      }
      RefreshTargetOfShape(delay, t, after);
    }
    assert delay + sep + t == delay + sep + t + [];
    assert IsAt(sep + more, sep, 0);
  }

  /** Content without any `;url=` redirects nowhere. */
  lemma NoSeparatorNoTarget(content: string)
    requires !Contains(content, RefreshSeparator)
    ensures RefreshTarget(content) == None
  {
    IndexOfFindsContained(content, RefreshSeparator);
  }

  // ---------------------------------------------------------------------------
  // Which head child redirects

  /** The first head child that carries a non-empty refresh target decides the
      redirect, which goes to the current origin, a slash and that target. */
  lemma RedirectIsFirstRefresh(page: Page, k: nat)
    requires k < |page.document.head|
    requires MetaRefresh(page.document.head[k]).Some?
    requires forall j :: 0 <= j < k ==> MetaRefresh(page.document.head[j]).None?
    ensures Redirect(page) == Some(page.location.origin + "/" + MetaRefresh(page.document.head[k]).value)
  {
    var r := FindRefresh(page.document.head, 0);
    assert r == Some(k);
  }

  /** A page redirects exactly when some head child carries a refresh target. */
  lemma NoRedirectIff(page: Page)
    ensures Redirect(page).None? <==> forall k :: 0 <= k < |page.document.head| ==> MetaRefresh(page.document.head[k]).None?
  {
  }

  // ---------------------------------------------------------------------------
  // One script tag

  /** A tag with a non-empty `src` is remote: its inline text plays no part. */
  lemma RemoteWinsOverInline(b: Browser, site: Site, origin: string, el: Element, text: string)
    requires RemoteSource(el).Some?
    ensures EvaluateScriptTag(b, site, origin, el.(innerHTML := text)) == EvaluateScriptTag(b, site, origin, el)
    ensures EvaluateScriptTag(b, site, origin, el).trace[0] in {Skip(ResolveScript(origin, RemoteSource(el).value)), Fetch(ResolveScript(origin, RemoteSource(el).value))}
  {
  }

  /** A script tag does nothing exactly when it has neither a `src` nor inline text. */
  lemma ScriptTagNoOpIff(b: Browser, site: Site, origin: string, el: Element)
    ensures EvaluateScriptTag(b, site, origin, el).trace == [] <==> RemoteSource(el).None? && el.innerHTML == ""
  {
  }

  /** A tag without a `src` but with inline text evaluates exactly that text, once. */
  lemma InlineEvaluated(b: Browser, site: Site, origin: string, el: Element)
    requires RemoteSource(el).None? && el.innerHTML != ""
    ensures EvaluateScriptTag(b, site, origin, el) == Evaluate(site, el.innerHTML)
    ensures EvaluateScriptTag(b, site, origin, el).trace == [Eval(el.innerHTML)]
  {
  }

  // ---------------------------------------------------------------------------
  // Walking the children

  /** Every action of a script pass concerns a script. */
  predicate IsScriptAction(a: Action) {
    a.Skip? || a.Fetch? || a.Eval?
  }

  /** Every fetched script is found at its URL and evaluated right after its fetch. */
  predicate FetchesEvaluated(site: Site, trace: seq<Action>) {
    forall i :: 0 <= i < |trace| && trace[i].Fetch? ==>
      && i + 1 < |trace|
      && trace[i].script.href in site.scripts
      && trace[i + 1] == Eval(site.scripts[trace[i].script.href])
  }

  /** Only blacklisted scripts are skipped, and no blacklisted script is fetched. */
  predicate RespectsBlacklist(b: Browser, trace: seq<Action>) {
    forall a | a in trace ::
      && (a.Fetch? ==> !IsBlacklisted(b, a.script.pathname))
      && (a.Skip? ==> IsBlacklisted(b, a.script.pathname))
  }

  lemma FetchesEvaluatedAppend(site: Site, x: seq<Action>, y: seq<Action>)
    requires FetchesEvaluated(site, x) && FetchesEvaluated(site, y)
    ensures FetchesEvaluated(site, x + y)
  {
    var s := x + y;
    forall i | 0 <= i < |s| && s[i].Fetch?
      ensures i + 1 < |s| && s[i].script.href in site.scripts && s[i + 1] == Eval(site.scripts[s[i].script.href])
    {
      if i < |x| {
        assert x[i].Fetch?;
      } else {
        assert y[i - |x|].Fetch?;
      }
    }
  }

  /** The two loops of `goto` act as one walk over the head's children followed by
      the body's: the body is reached only when every head script step succeeded. */
  lemma {:induction false} EvaluateChildrenAppend(b: Browser, site: Site, origin: string, xs: seq<Element>, ys: seq<Element>)
    ensures var px := EvaluateChildren(b, site, origin, xs);
      var py := EvaluateChildren(b, site, origin, ys);
      EvaluateChildren(b, site, origin, xs + ys) == if px.failed.Some? then px else Pass(px.trace + py.trace, py.failed)
  {
    if |xs| > 0 {
      assert (xs + ys)[0] == xs[0];
      assert (xs + ys)[1..] == xs[1..] + ys;
      EvaluateChildrenAppend(b, site, origin, xs[1..], ys);
    } else {
      assert xs + ys == ys;
    }
  }

  /** The `SCRIPT` children, in order. */
  function Scripts(xs: seq<Element>): (r: seq<Element>)
    ensures |r| <= |xs|
    ensures forall x | x in r :: x in xs && x.tagName == "SCRIPT"
    ensures forall x | x in xs && x.tagName == "SCRIPT" :: x in r
  {
    if |xs| == 0 then []
    else if xs[0].tagName == "SCRIPT" then [xs[0]] + Scripts(xs[1..])
    else Scripts(xs[1..])
  }

  /** Filtering a concatenation filters each part: the `SCRIPT` children keep
      their document order. */
  lemma {:induction false} ScriptsAppend(xs: seq<Element>, ys: seq<Element>)
    ensures Scripts(xs + ys) == Scripts(xs) + Scripts(ys)
  {
    var zs := xs + ys;
    if |xs| > 0 {
      assert zs[0] == xs[0];
      assert zs[1..] == xs[1..] + ys;
      ScriptsAppend(xs[1..], ys);
      var kept := if xs[0].tagName == "SCRIPT" then [xs[0]] else [];
      assert Scripts(zs) == kept + Scripts(xs[1..] + ys);
      assert Scripts(xs) == kept + Scripts(xs[1..]);
    } else {
      assert zs == ys;
    }
  }

  /** Children whose tag name is not `SCRIPT` produce no action. */
  lemma {:induction false} NonScriptsIgnored(b: Browser, site: Site, origin: string, xs: seq<Element>)
    ensures EvaluateChildren(b, site, origin, xs) == EvaluateChildren(b, site, origin, Scripts(xs))
  {
    if |xs| > 0 {
      NonScriptsIgnored(b, site, origin, xs[1..]);
      if xs[0].tagName == "SCRIPT" {
        assert ([xs[0]] + Scripts(xs[1..]))[1..] == Scripts(xs[1..]);
      }
    }
  }

  /** No evaluated text is one that throws. */
  predicate EvalsSucceed(site: Site, trace: seq<Action>) {
    forall a | a in trace && a.Eval? :: a.code !in site.throwing
  }

  /** The facts of `EvaluateChildrenFacts` for the step of a single child. */
  predicate PassFacts(b: Browser, site: Site, p: Pass) {
    && (forall a | a in p.trace :: IsScriptAction(a))
    && RespectsBlacklist(b, p.trace)
    && (p.failed.None? ==> FetchesEvaluated(site, p.trace) && EvalsSucceed(site, p.trace))
    && (p.failed.Some? ==> |p.trace| > 0 && EvalsSucceed(site, p.trace[..|p.trace| - 1]))
    && (p.failed.Some? && p.failed.value.FetchError? ==>
          && p.trace[|p.trace| - 1] == Fetch(p.failed.value.script)
          && p.failed.value.script.href !in site.scripts
          && FetchesEvaluated(site, p.trace[..|p.trace| - 1]))
    && (p.failed.Some? && p.failed.value.EvalError? ==>
          && p.trace[|p.trace| - 1] == Eval(p.failed.value.code)
          && p.failed.value.code in site.throwing
          && FetchesEvaluated(site, p.trace))
  }

  lemma ScriptTagFacts(b: Browser, site: Site, origin: string, el: Element)
    ensures PassFacts(b, site, EvaluateScriptTag(b, site, origin, el))
  {
    var p := EvaluateScriptTag(b, site, origin, el);
    if p.failed.Some? {
      assert |p.trace| <= 2;
      assert p.trace[..|p.trace| - 1] == [] || p.trace[..|p.trace| - 1] == [p.trace[0]];
    }
  }

  lemma PassFactsAppend(b: Browser, site: Site, first: Pass, rest: Pass)
    requires first.failed.None? && PassFacts(b, site, first) && PassFacts(b, site, rest)
    ensures PassFacts(b, site, Pass(first.trace + rest.trace, rest.failed))
  {
    var t := first.trace + rest.trace;
    if rest.failed.Some? {
      assert t[..|t| - 1] == first.trace + rest.trace[..|rest.trace| - 1];
      if rest.failed.value.FetchError? {
        FetchesEvaluatedAppend(site, first.trace, rest.trace[..|rest.trace| - 1]);
      } else {
        FetchesEvaluatedAppend(site, first.trace, rest.trace);
      }
    } else {
      FetchesEvaluatedAppend(site, first.trace, rest.trace);
    }
  }

  /** A pass only touches scripts, honours the blacklist, evaluates each fetched
      script right after fetching it, and stops exactly at the first failure: a
      fetch that failed, or the evaluation of a text that throws. */
  lemma {:induction false} EvaluateChildrenFacts(b: Browser, site: Site, origin: string, xs: seq<Element>)
    ensures PassFacts(b, site, EvaluateChildren(b, site, origin, xs))
  {
    if |xs| > 0 {
      var first := if xs[0].tagName == "SCRIPT" then EvaluateScriptTag(b, site, origin, xs[0]) else Pass([], None);
      ScriptTagFacts(b, site, origin, xs[0]);
      assert PassFacts(b, site, first);
      if first.failed.None? {
        EvaluateChildrenFacts(b, site, origin, xs[1..]);
        PassFactsAppend(b, site, first, EvaluateChildren(b, site, origin, xs[1..]));
      }
    }
  }

  /** The constructor's empty blacklist skips nothing. */
  lemma EmptyBlacklistSkipsNothing(site: Site, origin: string, xs: seq<Element>)
    ensures forall a | a in EvaluateChildren(NewBrowser, site, origin, xs).trace :: !a.Skip?
  {
    EvaluateChildrenFacts(NewBrowser, site, origin, xs);
  }

  function CountFetches(trace: seq<Action>): nat {
    if |trace| == 0 then 0 else (if trace[0].Fetch? then 1 else 0) + CountFetches(trace[1..])
  }

  lemma {:induction false} CountFetchesAppend(x: seq<Action>, y: seq<Action>)
    ensures CountFetches(x + y) == CountFetches(x) + CountFetches(y)
  {
    if |x| > 0 {
      assert (x + y)[1..] == x[1..] + y;
      CountFetchesAppend(x[1..], y);
    } else {
      assert x + y == y;
    }
  }

  /** The number of `SCRIPT` children that are remote and not blacklisted. */
  function FetchableScripts(b: Browser, origin: string, xs: seq<Element>): nat {
    if |xs| == 0 then 0
    else
      var el := xs[0];
      var fetchable := el.tagName == "SCRIPT" && RemoteSource(el).Some?
        && !IsBlacklisted(b, ResolveScript(origin, RemoteSource(el).value).pathname);
      (if fetchable then 1 else 0) + FetchableScripts(b, origin, xs[1..])
  }

  /** A pass without a failure fetches every remote, non-blacklisted script
      exactly once and nothing else. */
  lemma {:induction false} EachRemoteScriptFetchedOnce(b: Browser, site: Site, origin: string, xs: seq<Element>)
    requires EvaluateChildren(b, site, origin, xs).failed.None?
    ensures CountFetches(EvaluateChildren(b, site, origin, xs).trace) == FetchableScripts(b, origin, xs)
  {
    if |xs| > 0 {
      var first := if xs[0].tagName == "SCRIPT" then EvaluateScriptTag(b, site, origin, xs[0]) else Pass([], None);
      var rest := EvaluateChildren(b, site, origin, xs[1..]);
      EachRemoteScriptFetchedOnce(b, site, origin, xs[1..]);
      CountFetchesAppend(first.trace, rest.trace);
      assert CountFetches(first.trace) == (if xs[0].tagName == "SCRIPT" && RemoteSource(xs[0]).Some?
        && !IsBlacklisted(b, ResolveScript(origin, RemoteSource(xs[0]).value).pathname) then 1 else 0);
    }
  }

  /** The skips and fetches of a trace, in order. */
  function RemoteSteps(trace: seq<Action>): seq<Action> {
    if |trace| == 0 then []
    else (if trace[0].Skip? || trace[0].Fetch? then [trace[0]] else []) + RemoteSteps(trace[1..])
  }

  lemma {:induction false} RemoteStepsAppend(x: seq<Action>, y: seq<Action>)
    ensures RemoteSteps(x + y) == RemoteSteps(x) + RemoteSteps(y)
  {
    if |x| > 0 {
      assert (x + y)[0] == x[0];
      assert (x + y)[1..] == x[1..] + y;
      RemoteStepsAppend(x[1..], y);
    } else {
      assert x + y == y;
    }
  }

  /** For each remote `SCRIPT` child in document order, a skip of its resolved URL
      when a blacklist entry ends its pathname, and a fetch of it otherwise. */
  function PlannedRemoteSteps(b: Browser, origin: string, xs: seq<Element>): seq<Action> {
    if |xs| == 0 then []
    else
      var el := xs[0];
      var step := if el.tagName == "SCRIPT" && RemoteSource(el).Some? then
          var u := ResolveScript(origin, RemoteSource(el).value);
          [if IsBlacklisted(b, u.pathname) then Skip(u) else Fetch(u)]
        else [];
      step + PlannedRemoteSteps(b, origin, xs[1..])
  }

  /** A pass that does not fail skips exactly the blacklisted remote scripts and
      fetches exactly the others, each once, at its resolved URL, in document order. */
  lemma {:induction false} RemoteScriptsInOrder(b: Browser, site: Site, origin: string, xs: seq<Element>)
    requires EvaluateChildren(b, site, origin, xs).failed.None?
    ensures RemoteSteps(EvaluateChildren(b, site, origin, xs).trace) == PlannedRemoteSteps(b, origin, xs)
  {
    if |xs| > 0 {
      var el := xs[0];
      var first := if el.tagName == "SCRIPT" then EvaluateScriptTag(b, site, origin, el) else Pass([], None);
      var rest := EvaluateChildren(b, site, origin, xs[1..]);
      RemoteScriptsInOrder(b, site, origin, xs[1..]);
      RemoteStepsAppend(first.trace, rest.trace);
      var step := if el.tagName == "SCRIPT" && RemoteSource(el).Some? then
          var u := ResolveScript(origin, RemoteSource(el).value);
          [if IsBlacklisted(b, u.pathname) then Skip(u) else Fetch(u)]
        else [];
      assert RemoteSteps(first.trace) == step by {
        if el.tagName == "SCRIPT" && RemoteSource(el).Some? {
          var u := ResolveScript(origin, RemoteSource(el).value);
          if !IsBlacklisted(b, u.pathname) {
            assert first.trace == [Fetch(u), Eval(site.scripts[u.href])];
            assert first.trace[1..] == [Eval(site.scripts[u.href])];
          }
        } else if el.tagName == "SCRIPT" && el.innerHTML != "" {
          assert first.trace == [Eval(el.innerHTML)];
        }
      }
    }
  }

  /** The evaluated texts of a trace, in order. */
  function Evals(trace: seq<Action>): seq<string> {
    if |trace| == 0 then []
    else (if trace[0].Eval? then [trace[0].code] else []) + Evals(trace[1..])
  }

  lemma {:induction false} EvalsAppend(x: seq<Action>, y: seq<Action>)
    ensures Evals(x + y) == Evals(x) + Evals(y)
  {
    if |x| > 0 {
      assert (x + y)[0] == x[0];
      assert (x + y)[1..] == x[1..] + y;
      EvalsAppend(x[1..], y);
    } else {
      assert x + y == y;
    }
  }

  /** For each `SCRIPT` child in document order, the text served for it when it
      is remote and not blacklisted, its inline text when it has no `src` and that
      text is non-empty, and nothing otherwise. */
  function PlannedEvals(b: Browser, site: Site, origin: string, xs: seq<Element>): seq<string> {
    if |xs| == 0 then []
    else
      var el := xs[0];
      var step :=
        if el.tagName != "SCRIPT" then []
        else match RemoteSource(el)
          case Some(src) =>
            var u := ResolveScript(origin, src);
            if !IsBlacklisted(b, u.pathname) && u.href in site.scripts then [site.scripts[u.href]] else []
          case None => if el.innerHTML != "" then [el.innerHTML] else [];
      step + PlannedEvals(b, site, origin, xs[1..])
  }

  /** A pass that does not fail evaluates exactly the planned texts, each once,
      in document order: the served text of every fetched script and the inline
      text of every non-empty inline script, and nothing else. */
  lemma {:induction false} EvalsInOrder(b: Browser, site: Site, origin: string, xs: seq<Element>)
    requires EvaluateChildren(b, site, origin, xs).failed.None?
    ensures Evals(EvaluateChildren(b, site, origin, xs).trace) == PlannedEvals(b, site, origin, xs)
  {
    if |xs| > 0 {
      var el := xs[0];
      var first := if el.tagName == "SCRIPT" then EvaluateScriptTag(b, site, origin, el) else Pass([], None);
      var rest := EvaluateChildren(b, site, origin, xs[1..]);
      EvalsInOrder(b, site, origin, xs[1..]);
      EvalsAppend(first.trace, rest.trace);
      if el.tagName == "SCRIPT" && RemoteSource(el).Some? {
        var u := ResolveScript(origin, RemoteSource(el).value);
        if !IsBlacklisted(b, u.pathname) && u.href in site.scripts {
          assert first.trace == [Fetch(u), Eval(site.scripts[u.href])];
          assert first.trace[1..] == [Eval(site.scripts[u.href])];
        }
      }
    }
  }

  // ---------------------------------------------------------------------------
  // goto as a whole

  /** The script phase of a page that does not redirect: one walk over the head's
      children and then the body's, and a final wait when no script step failed. */
  function ScriptPhase(b: Browser, site: Site, page: Page): Run {
    var pass := EvaluateChildren(b, site, page.location.origin, page.document.head + page.document.body);
    match pass.failed
    case Some(f) => Run(pass.trace, Rejected(f))
    case None => Run(pass.trace + [Wait], Settled(page))
  }

  /** The URLs loaded when following meta-refresh redirects from `url`, at most `fuel` of them. */
  function RedirectChain(site: Site, url: string, fuel: nat): seq<string>
    decreases fuel
  {
    if fuel == 0 then []
    else match Redirect(site.Load(url))
      case None => [url]
      case Some(next) => [url] + RedirectChain(site, next, fuel - 1)
  }

  /** A navigation and a wait for each URL. */
  function Arrivals(urls: seq<string>): seq<Action> {
    if |urls| == 0 then [] else [Navigate(urls[0]), Wait] + Arrivals(urls[1..])
  }

  /** The redirect chain starts at the requested URL, each hop is the previous
      page's redirect, and it stops early only at a page that does not redirect. */
  lemma {:induction false} RedirectChainHops(site: Site, url: string, fuel: nat)
    ensures var chain := RedirectChain(site, url, fuel);
      && |chain| <= fuel
      && (fuel > 0 ==> |chain| > 0 && chain[0] == url)
      && (forall i :: 0 <= i < |chain| - 1 ==> Redirect(site.Load(chain[i])) == Some(chain[i + 1]))
      && (0 < |chain| < fuel ==> Redirect(site.Load(chain[|chain| - 1])).None?)
    decreases fuel
  {
    if fuel > 0 {
      match Redirect(site.Load(url))
      case None =>
      case Some(next) =>
        RedirectChainHops(site, next, fuel - 1);
        var rest := RedirectChain(site, next, fuel - 1);
        var chain := [url] + rest;
        forall i | 0 <= i < |chain| - 1
          ensures Redirect(site.Load(chain[i])) == Some(chain[i + 1])
        {
          if i > 0 {
            assert chain[i] == rest[i - 1];
          }
        }
    }
  }

  /** The run of `goto` from `url` is a navigation and a wait per URL of the
      redirect chain, followed, when the chain ends at a page that does not
      redirect, by that page's script phase, and otherwise by nothing: the fuel ran out. */
  predicate FollowsChain(b: Browser, site: Site, url: string, fuel: nat) {
    var chain := RedirectChain(site, url, fuel);
    var r := Goto(b, site, url, fuel);
    if |chain| > 0 && Redirect(site.Load(chain[|chain| - 1])).None? then
      var phase := ScriptPhase(b, site, site.Load(chain[|chain| - 1]));
      r == Run(Arrivals(chain) + phase.trace, phase.halt)
    else r == Run(Arrivals(chain), OutOfFuel)
  }

  /** `goto` navigates along the redirect chain, a navigation and a wait per hop,
      and runs scripts only on the last page, the one that does not redirect: its
      head scripts, then its body scripts, then a final wait. While the chain is
      still redirecting when the fuel runs out, no script has run. */
  lemma {:induction false} GotoFollowsChain(b: Browser, site: Site, url: string, fuel: nat)
    ensures FollowsChain(b, site, url, fuel)
    decreases fuel
  {
    if fuel > 0 {
      match Redirect(site.Load(url))
      case Some(next) =>
        GotoFollowsChain(b, site, next, fuel - 1);
        RedirectStep(b, site, url, fuel, next);
      case None =>
        SettleWithoutRedirect(b, site, url, fuel);
    }
  }

  /** One hop of `goto`, given that the rest of the chain is followed. */
  lemma RedirectStep(b: Browser, site: Site, url: string, fuel: nat, next: string)
    requires fuel > 0 && Redirect(site.Load(url)) == Some(next)
    requires FollowsChain(b, site, next, fuel - 1)
    ensures FollowsChain(b, site, url, fuel)
  {
    var arrive := [Navigate(url), Wait];
    var rest := RedirectChain(site, next, fuel - 1);
    var rr := Goto(b, site, next, fuel - 1);
    var chain := [url] + rest;
    assert RedirectChain(site, url, fuel) == chain;
    assert Goto(b, site, url, fuel) == Run(arrive + rr.trace, rr.halt);
    assert chain[1..] == rest;
    assert Arrivals(chain) == arrive + Arrivals(rest);
    if |rest| > 0 && Redirect(site.Load(rest[|rest| - 1])).None? {
      var phase := ScriptPhase(b, site, site.Load(rest[|rest| - 1]));
      assert chain[|chain| - 1] == rest[|rest| - 1];
      assert arrive + (Arrivals(rest) + phase.trace) == Arrivals(chain) + phase.trace;
    } else if |rest| > 0 {
      assert chain[|chain| - 1] == rest[|rest| - 1];
    } else {
      assert chain == [url];
    }
  }

  /** `goto` on a page that does not redirect: one arrival and the script phase. */
  lemma SettleWithoutRedirect(b: Browser, site: Site, url: string, fuel: nat)
    requires fuel > 0 && Redirect(site.Load(url)).None?
    ensures var phase := ScriptPhase(b, site, site.Load(url));
      Goto(b, site, url, fuel) == Run(Arrivals([url]) + phase.trace, phase.halt)
  {
    var page := site.Load(url);
    EvaluateChildrenAppend(b, site, page.location.origin, page.document.head, page.document.body);
    assert Arrivals([url]) == [Navigate(url), Wait];
  }

  /** Fuel only bounds the model: a run that did not run out of it is the run every
      larger fuel gives. */
  lemma {:induction false} MoreFuelSameRun(b: Browser, site: Site, url: string, fuel: nat, more: nat)
    requires fuel <= more && !Goto(b, site, url, fuel).halt.OutOfFuel?
    ensures Goto(b, site, url, more) == Goto(b, site, url, fuel)
    decreases fuel
  {
    match Redirect(site.Load(url))
    case None =>
    case Some(next) =>
      MoreFuelSameRun(b, site, next, fuel - 1, more - 1);
  }

  /** A page whose meta refresh points back at itself is loaded again and again
      without end: the source has no bound on the redirect depth. */
  lemma {:induction false} SelfRedirectNeverSettles(b: Browser, site: Site, url: string, fuel: nat)
    requires Redirect(site.Load(url)) == Some(url)
    ensures Goto(b, site, url, fuel).halt == OutOfFuel
    ensures |Goto(b, site, url, fuel).trace| == 2 * fuel
    ensures forall a | a in Goto(b, site, url, fuel).trace :: a == Navigate(url) || a == Wait
  {
    if fuel > 0 {
      SelfRedirectNeverSettles(b, site, url, fuel - 1);
    }
  }
}
