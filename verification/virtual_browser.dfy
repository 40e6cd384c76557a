/** The page-settle engine of the login script (`VirtualBrowser` in src/js/login.ts).

    `goto` loads a URL, waits, follows the first meta-refresh directive of the
    document head (recursively, before any script of the page runs) and otherwise
    evaluates the `SCRIPT` children of the head and then of the body, in document
    order, fetching remote ones itself, and waits once more.

    Here the page-loading collaborator is a `Site` (what each URL loads to, what
    each script URL serves, and which script texts throw when evaluated) and
    `goto` is a pure function from a `Site` to
    the trace of actions the browser performs. The source's recursion has no
    depth bound, so the model carries explicit `fuel` and reports `OutOfFuel`
    when it is spent. */
module VirtualBrowser {
  import opened Base
  import opened Text

  /** A DOM element: its upper-case `tagName`, its attributes (names as the HTML
      parser stores them, in lower case) and its `innerHTML`. */
  datatype Element = Element(tagName: string, attributes: map<string, string>, innerHTML: string)
  {
    /** DOM `getAttribute`: `None` stands for `null`, an absent attribute. */
    function GetAttribute(name: string): Option<string> {
      if name in attributes then Some(attributes[name]) else None
    }
  }

  /** The direct children of `document.head` and of `document.body`. */
  datatype Document = Document(head: seq<Element>, body: seq<Element>)

  datatype Location = Location(origin: string, pathname: string)

  /** A page after `page.goto` and `waitUntilComplete`: where it is and what it holds. */
  datatype Page = Page(location: Location, document: Document)

  /** The network as the browser sees it: the page each URL settles to (`blank` for
      every URL the site does not list) and the text each script URL serves; a
      script URL missing from `scripts` is a failed fetch. `throwing` holds the
      script texts whose evaluation throws on the site's pages. */
  datatype Site = Site(pages: map<string, Page>, blank: Page, scripts: map<string, string>, throwing: set<string>)
  {
    function Load(url: string): Page {
      if url in pages then pages[url] else blank
    }
  }

  /** A resolved script URL: its full text and its `pathname`. */
  datatype ScriptUrl = ScriptUrl(href: string, pathname: string)

  /** One observable step of the browser. */
  datatype Action =
    | Navigate(url: string)       // page.goto(url)
    | Wait                        // waitUntilComplete
    | Skip(script: ScriptUrl)     // a blacklisted remote script
    | Fetch(script: ScriptUrl)    // fetchScript
    | Eval(code: string)          // page.evaluate

  /** A browser and its script blacklist (path suffixes never fetched). */
  datatype Browser = Browser(blacklist: seq<string>)

  /** The constructor installs an empty blacklist (login.ts:26). */
  const NewBrowser := Browser([])

  // ---------------------------------------------------------------------------
  // Meta refresh

  const RefreshSeparator := ";url="

  /** `content.split(";url=", 2)[1]`: the text between the first `;url=` and the
      next one (or the end); `None` (JavaScript `undefined`) without any `;url=`. */
  function RefreshTarget(content: string): Option<string> {
    match IndexOf(content, RefreshSeparator, 0)
    case None => None
    case Some(i) =>
      var start := i + |RefreshSeparator|;
      match IndexOf(content, RefreshSeparator, start)
      case None => Some(content[start..])
      case Some(j) => Some(content[start..j])
  }

  /** The redirect target an element contributes: only a `META` element whose
      `http-equiv` is exactly `refresh`, with a `content` whose target is non-empty. */
  function MetaRefresh(el: Element): Option<string> {
    if el.tagName == "META" && el.GetAttribute("http-equiv") == Some("refresh") && el.GetAttribute("content").Some? then
      var target := RefreshTarget(el.GetAttribute("content").value);
      if target.Some? && target.value != "" then target else None
    else None
  }

  /** The index of the first head child at or after `from` that carries a redirect. */
  function FindRefresh(head: seq<Element>, from: nat): (r: Option<nat>)
    ensures r.Some? ==> from <= r.value < |head| && MetaRefresh(head[r.value]).Some?
    ensures forall k :: from <= k < |head| && (r.None? || k < r.value) ==> MetaRefresh(head[k]).None?
    decreases |head| - from
  {
    if from >= |head| then None
    else if MetaRefresh(head[from]).Some? then Some(from)
    else FindRefresh(head, from + 1)
  }

  /** The URL the meta-refresh scan of a loaded page sends the browser to:
      the current origin, a slash, and the first non-empty target. */
  function Redirect(page: Page): Option<string> {
    match FindRefresh(page.document.head, 0)
    case None => None
    case Some(k) => Some(page.location.origin + "/" + MetaRefresh(page.document.head[k]).value)
  }

  // ---------------------------------------------------------------------------
  // Script evaluation

  /** The `src` attribute when it is present and non-empty (JavaScript truthiness). */
  function RemoteSource(el: Element): Option<string> {
    match el.GetAttribute("src")
    case None => None
    case Some(src) => if src != "" then Some(src) else None
  }

  /** The part of a URL tail before its query or fragment. */
  function UntilQuery(s: string): (r: string)
    ensures r <= s && '?' !in r && '#' !in r
    ensures |r| < |s| ==> s[|r|] == '?' || s[|r|] == '#'
  {
    if |s| == 0 || s[0] == '?' || s[0] == '#' then "" else [s[0]] + UntilQuery(s[1..])
  }

  /** `new URL(origin + "/" + src)`: the href as built and its pathname. */
  function ResolveScript(origin: string, src: string): ScriptUrl {
    ScriptUrl(origin + "/" + src, "/" + UntilQuery(src))
  }

  /** Some blacklist entry is a suffix of the pathname. */
  predicate IsBlacklisted(b: Browser, pathname: string) {
    exists entry | entry in b.blacklist :: EndsWith(pathname, entry)
  }

  /** Why a script step rejected: its fetch failed, or evaluating its text threw. */
  datatype Failure = FetchError(script: ScriptUrl) | EvalError(code: string)

  /** The actions of one part of the script phase, and the failure that ends the
      part (the rejected promise propagates out of `goto`, as nothing catches it). */
  datatype Pass = Pass(trace: seq<Action>, failed: Option<Failure>)

  /** `page.evaluate(code)`: one `Eval`, which throws when the site says so. */
  function Evaluate(site: Site, code: string): Pass {
    Pass([Eval(code)], if code in site.throwing then Some(EvalError(code)) else None)
  }

  /** `evaluateScriptTag`: a remote script is skipped when blacklisted and
      otherwise fetched and then evaluated; failing that, non-empty inline text is
      evaluated; otherwise nothing happens. */
  function EvaluateScriptTag(b: Browser, site: Site, origin: string, el: Element): Pass {
    match RemoteSource(el)
    case Some(src) =>
      var url := ResolveScript(origin, src);
      if IsBlacklisted(b, url.pathname) then Pass([Skip(url)], None)
      else if url.href in site.scripts then
        var run := Evaluate(site, site.scripts[url.href]);
        Pass([Fetch(url)] + run.trace, run.failed)
      else Pass([Fetch(url)], Some(FetchError(url)))
    case None =>
      if el.innerHTML != "" then Evaluate(site, el.innerHTML) else Pass([], None)
  }

  /** One `for … of children` loop: every `SCRIPT` child in order, stopping at the first failure. */
  function EvaluateChildren(b: Browser, site: Site, origin: string, children: seq<Element>): Pass
    decreases |children|
  {
    if |children| == 0 then Pass([], None)
    else
      var first := if children[0].tagName == "SCRIPT" then EvaluateScriptTag(b, site, origin, children[0]) else Pass([], None);
      if first.failed.Some? then first
      else
        var rest := EvaluateChildren(b, site, origin, children[1..]);
        Pass(first.trace + rest.trace, rest.failed)
  }

  // ---------------------------------------------------------------------------
  // goto

  /** How a `goto` ends: settled on a page, rejected by a failed script fetch or a
      throwing script, or (a model artefact) still redirecting when the fuel ran out. */
  datatype Halt = Settled(page: Page) | Rejected(failure: Failure) | OutOfFuel

  datatype Run = Run(trace: seq<Action>, halt: Halt)

  /** `goto(url)` with at most `fuel` page loads. */
  function Goto(b: Browser, site: Site, url: string, fuel: nat): Run
    decreases fuel
  {
    if fuel == 0 then Run([], OutOfFuel)
    else
      var page := site.Load(url);
      var arrive := [Navigate(url), Wait];
      match Redirect(page)
      case Some(next) =>
        var rest := Goto(b, site, next, fuel - 1);
        Run(arrive + rest.trace, rest.halt)
      case None =>
        var origin := page.location.origin;
        var head := EvaluateChildren(b, site, origin, page.document.head);
        if head.failed.Some? then Run(arrive + head.trace, Rejected(head.failed.value))
        else
          var body := EvaluateChildren(b, site, origin, page.document.body);
          if body.failed.Some? then Run(arrive + head.trace + body.trace, Rejected(body.failed.value))
          else Run(arrive + head.trace + body.trace + [Wait], Settled(page))
  }
}
