/** The globals of the CEF shim (native/cef_shim.c:29-38, 150-361, 572-866), driven by
    API calls and by callbacks in any order. `Globals` is the state as a value, with
    the history of effects, the number of finished loads reported since the last reset
    or load, and the closes and load errors since the last reset; the functions are the
    meaning of the C functions. */
module CefShim {
  import opened CefArgv
  import opened Wrappers

  /** A cef_browser_t pointer, as a handle. */
  type Browser = nat

  /** What CEF answers about a browser: its identifier when get_identifier is set,
      whether its host can close it, whether get_main_frame is set, and whether the main
      frame can load a URL. */
  datatype Env = Env(identifier: Browser -> Option<int>, closable: Browser -> bool,
    framed: Browser -> bool, loadable: Browser -> bool)

  datatype Effect =
    | AddRef(browser: Browser)
    | Release(browser: Browser)
    | Malloc(block: Block)
    | Free(block: Block)
    | CloseHost(browser: Browser)
    | QuitLoop
    | RunScript(block: Block)
    | StartLoad(browser: Browser)
    | ReportCreated(id: int)
    | ReportLoadEnd(id: int, status: int)
    | ReportLoadError(id: int, code: int)
    | ReportBeforeClose(id: int)
    | NewBrowser   // eg_cef_reset_browser_state ran
    | NewLoad      // eg_cef_shim_load_url cleared the load flags

  datatype Globals = Globals(
    browser: Option<Browser>, script: Option<Block>, initialized: bool, browserId: int,
    loadComplete: bool, loadFailed: bool, closeRequested: bool, browserClosed: bool,
    autoClose: bool, quitOnLoad: bool,
    nextBlock: Block, reports: nat, closes: nat, errors: nat, log: seq<Effect>)

  /** Callbacks from CEF and calls of the API; create and run are split around the
      callbacks CEF may fire inside them. */
  datatype Event =
    | AfterCreated(browser: Option<Browser>)
    | BeforeClose(browser: Option<Browser>)
    | LoadEnd(browser: Option<Browser>, mainFrame: bool, executable: bool, converts: bool, status: int)
    | LoadError(browser: Option<Browser>, mainFrame: bool, code: int)
    | LoadingStateChange(browser: Option<Browser>, loading: bool)
    | ConsoleMessage(browser: Option<Browser>, result: bool)
    | Initialize(succeeds: bool)
    | CreateBegin(autoClose: bool)
    | CreateEnd(browser: Option<Browser>)
    | LoadUrl(id: int, converts: bool)
    | CloseBrowser(id: int)
    | SetScript(id: int, empty: bool, allocates: bool)
    | RunBegin(untilLoad: bool)
    | RunEnd(restoredAutoClose: Option<bool>)
    | Shutdown
  {
    predicate IsCallback()
    {
      AfterCreated? || BeforeClose? || LoadEnd? || LoadError? || LoadingStateChange? || ConsoleMessage?
    }

    predicate MayReport()
    {
      LoadEnd? || LoadingStateChange? || ConsoleMessage?
    }
  }

  function Init(): Globals
  {
    Globals(None, None, false, 0, false, false, false, false, true, false, 0, 0, 0, 0, [])
  }

  function Logged(g: Globals, e: Effect): Globals
  {
    g.(log := g.log + [e])
  }

  // ----- the static helpers -----

  function ReleaseBrowserRef(g: Globals): Globals
  {
    match g.browser
    case None => g
    case Some(b) => Logged(g, Release(b)).(browser := None)
  }

  function ClearScript(g: Globals): Globals
  {
    match g.script
    case None => g
    case Some(p) => Logged(g, Free(p)).(script := None)
  }

  function StoreBrowserRef(g: Globals, browser: Option<Browser>): Globals
  {
    if browser.None? || browser == g.browser then g
    else Logged(ReleaseBrowserRef(g), AddRef(browser.value)).(browser := browser)
  }

  function RequestClose(env: Env, g: Globals, browser: Option<Browser>): Globals
  {
    var target := if browser.None? then g.browser else browser;
    if g.closeRequested || target.None? || !env.closable(target.value) then g
    else Logged(g.(closeRequested := true, closes := g.closes + 1), CloseHost(target.value))
  }

  function BrowserId(env: Env, g: Globals, browser: Option<Browser>): int
  {
    if browser.Some? && env.identifier(browser.value).Some? then env.identifier(browser.value).value else g.browserId
  }

  function ReportLoad(g: Globals, id: int, status: int): Globals
  {
    Logged(g, ReportLoadEnd(id, status)).(loadComplete := true, browserId := id, reports := g.reports + 1)
  }

  function ReportFailed(g: Globals, id: int, code: int): Globals
  {
    Logged(g, ReportLoadError(id, code)).(loadFailed := true, browserId := id, errors := g.errors + 1)
  }

  function ReportClosed(g: Globals, id: int): Globals
  {
    Logged(g, ReportBeforeClose(id)).(browserId := id, browserClosed := true)
  }

  /** The common end of the three places that report a finished load. */
  function AfterLoad(env: Env, g: Globals, browser: Option<Browser>): Globals
  {
    if g.autoClose then RequestClose(env, g, browser)
    else if g.quitOnLoad then Logged(g, QuitLoop)
    else g
  }

  function Blanked(g: Globals): Globals
  {
    Globals(g.browser, g.script, g.initialized, 0, false, false, false, false, true, false,
            g.nextBlock, 0, 0, 0, g.log + [NewBrowser])
  }

  function ResetBrowserState(g: Globals): Globals
  {
    ReleaseBrowserRef(ClearScript(Blanked(g)))
  }

  // ----- callbacks and API calls -----

  function OnAfterCreated(env: Env, g: Globals, browser: Option<Browser>): Globals
  {
    var h := StoreBrowserRef(g, browser);
    if browser.Some? && env.identifier(browser.value).Some? then
      var id := env.identifier(browser.value).value;
      Logged(h, ReportCreated(id)).(browserId := id)
    else h
  }

  function OnBeforeClose(env: Env, g: Globals, browser: Option<Browser>): Globals
  {
    var id := BrowserId(env, g, browser);
    var h := ReportClosed(g, id);
    Logged(ReleaseBrowserRef(h), QuitLoop)
  }

  function OnLoadEnd(env: Env, g: Globals, e: Event): Globals
    requires e.LoadEnd?
  {
    if !e.mainFrame || g.loadComplete || g.closeRequested then g
    else
      var id := BrowserId(env, g, e.browser);
      if g.script.Some? && e.executable && e.converts then Logged(g, RunScript(g.script.value)).(browserId := id)
      else AfterLoad(env, ReportLoad(g, id, e.status), e.browser)
  }

  function OnLoadError(env: Env, g: Globals, e: Event): Globals
    requires e.LoadError?
  {
    if !e.mainFrame || e.code == -3 then g
    else
      var id := BrowserId(env, g, e.browser);
      var h := ReportFailed(g, id, e.code);
      Logged(RequestClose(env, h, e.browser), QuitLoop)
  }

  function OnLoadingStateChange(env: Env, g: Globals, e: Event): Globals
    requires e.LoadingStateChange?
  {
    if e.loading || g.loadFailed || g.loadComplete || g.closeRequested || g.script.Some? then g
    else
      var id := BrowserId(env, g, e.browser);
      AfterLoad(env, ReportLoad(g, id, 0), e.browser)
  }

  function OnConsoleMessage(env: Env, g: Globals, e: Event): Globals
    requires e.ConsoleMessage?
  {
    if g.script.None? || !e.result then g
    else
      var id := BrowserId(env, g, e.browser);
      AfterLoad(env, ClearScript(ReportLoad(g, id, 200)), e.browser)
  }

  /** The browser an API call addresses: the stored one, when its identifier matches. */
  predicate Addresses(env: Env, g: Globals, id: int)
  {
    id > 0 && g.initialized && g.browser.Some? && env.identifier(g.browser.value) == Some(id)
  }

  /** The load_url call goes through. */
  predicate Loads(env: Env, g: Globals, id: int, converts: bool)
  {
    Addresses(env, g, id) && env.framed(g.browser.value) && env.loadable(g.browser.value) && converts
  }

  /** The load flags are cleared, close_requested among them. */
  function Reloaded(g: Globals): Globals
  {
    Logged(g.(loadComplete := false, loadFailed := false, closeRequested := false, reports := 0), NewLoad)
  }

  function ShimLoadUrl(env: Env, g: Globals, id: int, converts: bool): Globals
  {
    if Loads(env, g, id, converts) then Logged(Reloaded(g), StartLoad(g.browser.value)) else g
  }

  function ShimSetScript(env: Env, g: Globals, e: Event): Globals
    requires e.SetScript?
  {
    if !Addresses(env, g, e.id) then g
    else
      var h := ClearScript(g);
      if e.empty || !e.allocates then h
      else Logged(h, Malloc(h.nextBlock)).(script := Some(h.nextBlock), nextBlock := h.nextBlock + 1)
  }

  function ShimInitialize(g: Globals, succeeds: bool): Globals
  {
    if succeeds then g.(initialized := true) else g
  }

  function CreateBegins(g: Globals, close: bool): Globals
  {
    ResetBrowserState(g).(autoClose := close)
  }

  function CreateEnds(env: Env, g: Globals, b: Option<Browser>): Globals
  {
    if b.Some? && env.identifier(b.value).Some? then g.(browserId := env.identifier(b.value).value) else g
  }

  /** The id create reports; zero when there is none. */
  function CreatedId(env: Env, b: Option<Browser>): int
  {
    if b.Some? && env.identifier(b.value).Some? then env.identifier(b.value).value else 0
  }

  /** wellFormed: not null, of this ABI revision; settings: its strings convert. */
  datatype InitializeRequest = InitializeRequest(wellFormed: bool, apiKnown: bool, args: seq<string>, settings: bool,
                                                 appMade: bool, initializes: bool)

  function InitializeStatus(r: InitializeRequest, initialized: bool, copied: bool): Status
  {
    if !r.wellFormed then InvalidRequest
    else if initialized then Running
    else if !r.apiKnown then Failed
    else if !copied || !r.settings then InvalidRequest
    else if !r.appMade || !r.initializes then Failed
    else Running
  }

  datatype CreateRequest = CreateRequest(wellFormed: bool, url: string, width: int, height: int, autoClose: bool, converts: bool)
  {
    predicate Valid()
    {
      wellFormed && url != "" && width > 0 && height > 0
    }
  }

  function CreateStatus(r: CreateRequest, created: Option<Browser>): Status
  {
    if !r.Valid() || !r.converts then InvalidRequest else if created.None? then Failed else Running
  }

  /** Why a call does not address the stored browser: FAILED when there is none to ask,
      INVALID_REQUEST when the identifier is the caller's mistake. */
  function Refusal(env: Env, g: Globals, id: int): Status
  {
    if id > 0 && (!g.initialized || g.browser.None? || env.identifier(g.browser.value).None?) then Failed else InvalidRequest
  }

  /** load_url refuses, before anything else, an empty URL, and has no browser to ask
      when get_main_frame is missing. */
  function LoadStatus(env: Env, g: Globals, id: int, url: string, converts: bool): Status
  {
    if Loads(env, g, id, url != "" && converts) then Running
    else if url == "" || id <= 0 then InvalidRequest
    else if !g.initialized || g.browser.None? || env.identifier(g.browser.value).None? || !env.framed(g.browser.value) then Failed
    else if env.identifier(g.browser.value) == Some(id) && !env.loadable(g.browser.value) then Failed
    else InvalidRequest
  }

  function LoopBegins(g: Globals, untilLoad: bool): Globals
  {
    if !g.initialized then g else g.(quitOnLoad := false, autoClose := g.autoClose || untilLoad)
  }

  function LoopEnds(g: Globals, restored: Option<bool>): Globals
  {
    if restored.None? then g else g.(autoClose := restored.value, quitOnLoad := false)
  }

  function ShimShutdown(g: Globals): Globals
  {
    ReleaseBrowserRef(ClearScript(g)).(initialized := false)
  }

  function Step(env: Env, g: Globals, e: Event): Globals
  {
    match e
    case AfterCreated(b) => OnAfterCreated(env, g, b)
    case BeforeClose(b) => OnBeforeClose(env, g, b)
    case LoadEnd(_, _, _, _, _) => OnLoadEnd(env, g, e)
    case LoadError(_, _, _) => OnLoadError(env, g, e)
    case LoadingStateChange(_, _) => OnLoadingStateChange(env, g, e)
    case ConsoleMessage(_, _) => OnConsoleMessage(env, g, e)
    case Initialize(succeeds) => ShimInitialize(g, succeeds)
    case CreateBegin(autoClose) => CreateBegins(g, autoClose)
    case CreateEnd(b) => CreateEnds(env, g, b)
    case LoadUrl(id, converts) => ShimLoadUrl(env, g, id, converts)
    case CloseBrowser(id) => if Addresses(env, g, id) then RequestClose(env, g, g.browser) else g
    case SetScript(_, _, _) => ShimSetScript(env, g, e)
    case RunBegin(untilLoad) => LoopBegins(g, untilLoad)
    case RunEnd(restored) => LoopEnds(g, restored)
    case Shutdown => ShimShutdown(g)
  }

  function Run(env: Env, g: Globals, events: seq<Event>): Globals
    decreases |events|
  {
    if events == [] then g else Run(env, Step(env, g, events[0]), events[1..])
  }

  /** The status both message-loop calls return when CEF's loop ends. */
  function LoopVerdict(g: Globals): Status
  {
    if g.loadFailed || !g.loadComplete || !g.browserClosed then Failed else Stopped
  }

  // ----- counting effects in the history -----

  function Count(log: seq<Effect>, e: Effect): nat
  {
    if log == [] then 0 else Count(log[..|log| - 1], e) + if log[|log| - 1] == e then 1 else 0
  }

  datatype Tag = Close | Ended | Errored | Closed

  predicate HasTag(e: Effect, tag: Tag)
  {
    match tag
    case Close => e.CloseHost?
    case Ended => e.ReportLoadEnd?
    case Errored => e.ReportLoadError?
    case Closed => e.ReportBeforeClose?
  }

  /** Close requests, load ends and load errors are counted from the last reset or the
      last load_url; before-close reports from the last reset. */
  predicate Restarts(e: Effect, tag: Tag)
  {
    e.NewBrowser? || (e.NewLoad? && tag != Closed)
  }

  function CountSince(log: seq<Effect>, tag: Tag): nat
  {
    if log == [] then 0
    else
      var last := log[|log| - 1];
      if Restarts(last, tag) then 0
      else CountSince(log[..|log| - 1], tag) + if HasTag(last, tag) then 1 else 0
  }

  /** The same count from the last reset on, whatever loads were started since. */
  function CountSinceReset(log: seq<Effect>, tag: Tag): nat
  {
    if log == [] then 0
    else
      var last := log[|log| - 1];
      if last.NewBrowser? then 0
      else CountSinceReset(log[..|log| - 1], tag) + if HasTag(last, tag) then 1 else 0
  }

  lemma CountResetSnoc(log: seq<Effect>, e: Effect, tag: Tag)
    ensures CountSinceReset(log + [e], tag) == if e.NewBrowser? then 0 else CountSinceReset(log, tag) + if HasTag(e, tag) then 1 else 0
  {
    assert (log + [e])[..|log + [e]| - 1] == log;
  }

  lemma CountSnoc(log: seq<Effect>, e: Effect, x: Effect)
    ensures Count(log + [e], x) == Count(log, x) + if e == x then 1 else 0
  {
  }

  lemma CountSinceSnoc(log: seq<Effect>, e: Effect, tag: Tag)
    ensures CountSince(log + [e], tag) == if Restarts(e, tag) then 0 else CountSince(log, tag) + if HasTag(e, tag) then 1 else 0
  {
  }

  // ----- the invariants -----

  /** add_ref minus release is one for the browser in g_browser, zero for all others. */
  ghost predicate RefsBalanced(log: seq<Effect>, browser: Option<Browser>)
  {
    forall b: Browser :: Count(log, AddRef(b)) == Count(log, Release(b)) + if browser == Some(b) then 1 else 0
  }

  /** Every block is allocated once; it has been freed exactly when it is no longer the
      current script, and then once. */
  ghost predicate BlocksBalanced(log: seq<Effect>, script: Option<Block>, next: Block)
  {
    && (script.Some? ==> script.value < next)
    && forall p: Block :: Count(log, Malloc(p)) == (if p < next then 1 else 0)
                && Count(log, Free(p)) == (if p < next && script != Some(p) then 1 else 0)
  }

  /** A flag says whether something of its kind has happened since the last restart. */
  predicate FlagTells(log: seq<Effect>, tag: Tag, flag: bool)
  {
    CountSince(log, tag) >= 1 <==> flag
  }

  ghost predicate Inv(g: Globals)
  {
    && RefsBalanced(g.log, g.browser)
    && BlocksBalanced(g.log, g.script, g.nextBlock)
    && CountSince(g.log, Close) <= 1 && CountSince(g.log, Ended) == g.reports
    && CountSinceReset(g.log, Close) == g.closes && CountSinceReset(g.log, Errored) == g.errors
    && FlagTells(g.log, Close, g.closeRequested) && FlagTells(g.log, Ended, g.loadComplete)
    && FlagTells(g.log, Errored, g.loadFailed) && FlagTells(g.log, Closed, g.browserClosed)
  }

  // ----- every step keeps them -----

  /** One effect is logged and the globals move with it. */
  predicate Follows(g: Globals, e: Effect, h: Globals)
  {
    && h.log == g.log + [e]
    && (match e
        case AddRef(b) => g.browser == None && h.browser == Some(b)
        case Release(b) => g.browser == Some(b) && h.browser == None
        case _ => h.browser == g.browser)
    && (match e
        case Malloc(p) => g.script == None && p == g.nextBlock && h.script == Some(p) && h.nextBlock == p + 1
        case Free(p) => g.script == Some(p) && h.script == None && h.nextBlock == g.nextBlock
        case _ => h.script == g.script && h.nextBlock == g.nextBlock)
    && (e.CloseHost? ==> !g.closeRequested)
    && (h.closeRequested <==> !Restarts(e, Close) && (g.closeRequested || HasTag(e, Close)))
    && (h.loadComplete <==> !Restarts(e, Ended) && (g.loadComplete || HasTag(e, Ended)))
    && h.closes == (if e.NewBrowser? then 0 else g.closes + if HasTag(e, Close) then 1 else 0)
    && h.errors == (if e.NewBrowser? then 0 else g.errors + if HasTag(e, Errored) then 1 else 0)
    && h.reports == (if Restarts(e, Ended) then 0 else g.reports + if HasTag(e, Ended) then 1 else 0)
    && (h.loadFailed <==> !Restarts(e, Errored) && (g.loadFailed || HasTag(e, Errored)))
    && (h.browserClosed <==> !Restarts(e, Closed) && (g.browserClosed || HasTag(e, Closed)))
  }

  lemma RefsFollow(g: Globals, e: Effect, h: Globals)
    requires RefsBalanced(g.log, g.browser) && Follows(g, e, h)
    ensures RefsBalanced(h.log, h.browser)
  {
  }

  lemma BlocksFollow(g: Globals, e: Effect, h: Globals)
    requires BlocksBalanced(g.log, g.script, g.nextBlock) && Follows(g, e, h)
    ensures BlocksBalanced(h.log, h.script, h.nextBlock)
  {
  }

  lemma FollowsKeepsInv(g: Globals, e: Effect, h: Globals)
    requires Inv(g) && Follows(g, e, h)
    ensures Inv(h)
  {
    RefsFollow(g, e, h);
    BlocksFollow(g, e, h);
    CountSinceSnoc(g.log, e, Close);
    CountSinceSnoc(g.log, e, Ended);
    CountSinceSnoc(g.log, e, Errored);
    CountSinceSnoc(g.log, e, Closed);
    CountResetSnoc(g.log, e, Close);
    CountResetSnoc(g.log, e, Errored);
  }

  lemma ReleaseKeeps(g: Globals)
    requires Inv(g)
    ensures Inv(ReleaseBrowserRef(g))
  {
    if g.browser.Some? { FollowsKeepsInv(g, Release(g.browser.value), ReleaseBrowserRef(g)); }
  }

  lemma ClearKeeps(g: Globals)
    requires Inv(g)
    ensures Inv(ClearScript(g))
  {
    if g.script.Some? { FollowsKeepsInv(g, Free(g.script.value), ClearScript(g)); }
  }

  lemma CloseKeeps(env: Env, g: Globals, browser: Option<Browser>)
    requires Inv(g)
    ensures Inv(RequestClose(env, g, browser))
  {
    var target := if browser.None? then g.browser else browser;
    if RequestClose(env, g, browser) != g { FollowsKeepsInv(g, CloseHost(target.value), RequestClose(env, g, browser)); }
  }

  lemma QuitKeeps(g: Globals)
    requires Inv(g)
    ensures Inv(Logged(g, QuitLoop))
  {
    FollowsKeepsInv(g, QuitLoop, Logged(g, QuitLoop));
  }

  /** Reporting a finished load, then closing or quitting. */
  lemma FinishKeeps(env: Env, g: Globals, browser: Option<Browser>, id: int, status: int, clear: bool)
    requires Inv(g)
    ensures
      var h := ReportLoad(g, id, status);
      Inv(AfterLoad(env, if clear then ClearScript(h) else h, browser))
  {
    var h := ReportLoad(g, id, status);
    FollowsKeepsInv(g, ReportLoadEnd(id, status), h);
    ClearKeeps(h);
    var k := if clear then ClearScript(h) else h;
    CloseKeeps(env, k, browser);
    QuitKeeps(k);
  }

  lemma StoreKeeps(g: Globals, browser: Option<Browser>)
    requires Inv(g)
    ensures Inv(StoreBrowserRef(g, browser))
  {
    if browser.Some? && browser != g.browser {
      ReleaseKeeps(g);
      FollowsKeepsInv(ReleaseBrowserRef(g), AddRef(browser.value), StoreBrowserRef(g, browser));
    }
  }

  lemma CreatedKeeps(env: Env, g: Globals, browser: Option<Browser>)
    requires Inv(g)
    ensures Inv(OnAfterCreated(env, g, browser))
  {
    StoreKeeps(g, browser);
    var h := StoreBrowserRef(g, browser);
    if browser.Some? && env.identifier(browser.value).Some? {
      FollowsKeepsInv(h, ReportCreated(env.identifier(browser.value).value), OnAfterCreated(env, g, browser));
    }
  }

  lemma BeforeCloseKeeps(env: Env, g: Globals, browser: Option<Browser>)
    requires Inv(g)
    ensures Inv(OnBeforeClose(env, g, browser))
  {
    var id := BrowserId(env, g, browser);
    var h := ReportClosed(g, id);
    FollowsKeepsInv(g, ReportBeforeClose(id), h);
    ReleaseKeeps(h);
    QuitKeeps(ReleaseBrowserRef(h));
  }

  lemma LoadEndKeeps(env: Env, g: Globals, e: Event)
    requires Inv(g) && e.LoadEnd?
    ensures Inv(OnLoadEnd(env, g, e))
  {
    var id := BrowserId(env, g, e.browser);
    FinishKeeps(env, g, e.browser, id, e.status, false);
    if g.script.Some? { RunScriptKeeps(g, id); }
  }

  lemma RunScriptKeeps(g: Globals, id: int)
    requires Inv(g) && g.script.Some?
    ensures Inv(Logged(g, RunScript(g.script.value)).(browserId := id))
  {
    FollowsKeepsInv(g, RunScript(g.script.value), Logged(g, RunScript(g.script.value)).(browserId := id));
  }

  lemma LoadErrorKeeps(env: Env, g: Globals, e: Event)
    requires Inv(g) && e.LoadError?
    ensures Inv(OnLoadError(env, g, e))
  {
    var id := BrowserId(env, g, e.browser);
    var h := ReportFailed(g, id, e.code);
    FollowsKeepsInv(g, ReportLoadError(id, e.code), h);
    CloseKeeps(env, h, e.browser);
    QuitKeeps(RequestClose(env, h, e.browser));
  }

  lemma ResetKeeps(g: Globals)
    requires Inv(g)
    ensures Inv(ResetBrowserState(g))
  {
    var h := Blanked(g);
    FollowsKeepsInv(g, NewBrowser, h);
    ClearKeeps(h);
    ReleaseKeeps(ClearScript(h));
  }

  lemma LoadUrlKeeps(env: Env, g: Globals, id: int, converts: bool)
    requires Inv(g)
    ensures Inv(ShimLoadUrl(env, g, id, converts))
  {
    if Loads(env, g, id, converts) {
      FollowsKeepsInv(g, NewLoad, Reloaded(g));
      FollowsKeepsInv(Reloaded(g), StartLoad(g.browser.value), ShimLoadUrl(env, g, id, converts));
    }
  }

  lemma SetScriptKeeps(env: Env, g: Globals, e: Event)
    requires Inv(g) && e.SetScript?
    ensures Inv(ShimSetScript(env, g, e))
  {
    ClearKeeps(g);
    var h := ClearScript(g);
    if Addresses(env, g, e.id) && !e.empty && e.allocates {
      FollowsKeepsInv(h, Malloc(h.nextBlock), ShimSetScript(env, g, e));
    }
  }

  lemma CallbackKeepsInv(env: Env, g: Globals, e: Event)
    requires Inv(g) && e.IsCallback()
    ensures Inv(Step(env, g, e))
  {
    match e
    case AfterCreated(b) => CreatedKeeps(env, g, b);
    case BeforeClose(b) => BeforeCloseKeeps(env, g, b);
    case LoadEnd(_, _, _, _, _) => LoadEndKeeps(env, g, e);
    case LoadError(_, _, _) => LoadErrorKeeps(env, g, e);
    case LoadingStateChange(b, _) => FinishKeeps(env, g, b, BrowserId(env, g, b), 0, false);
    case ConsoleMessage(b, _) => FinishKeeps(env, g, b, BrowserId(env, g, b), 200, true);
  }

  lemma CreateKeeps(g: Globals, close: bool)
    requires Inv(g)
    ensures Inv(CreateBegins(g, close))
  {
    ResetKeeps(g);
  }

  lemma ShutdownKeeps(g: Globals)
    requires Inv(g)
    ensures Inv(ShimShutdown(g))
  {
    ClearKeeps(g);
    ReleaseKeeps(ClearScript(g));
  }

  lemma InitializeKeeps(g: Globals, succeeds: bool)
    requires Inv(g)
    ensures Inv(ShimInitialize(g, succeeds))
  {
  }

  lemma CreateEndKeeps(env: Env, g: Globals, b: Option<Browser>)
    requires Inv(g)
    ensures Inv(CreateEnds(env, g, b))
  {
  }

  lemma LoopBeginKeeps(g: Globals, untilLoad: bool)
    requires Inv(g)
    ensures Inv(LoopBegins(g, untilLoad))
  {
  }

  lemma LoopEndKeeps(g: Globals, restored: Option<bool>)
    requires Inv(g)
    ensures Inv(LoopEnds(g, restored))
  {
  }

  lemma SettingKeepsInv(env: Env, g: Globals, e: Event)
    requires Inv(g) && (e.Initialize? || e.CreateEnd? || e.RunBegin? || e.RunEnd?)
    ensures Inv(Step(env, g, e))
  {
    match e
    case Initialize(succeeds) => InitializeKeeps(g, succeeds);
    case CreateEnd(b) => CreateEndKeeps(env, g, b);
    case RunBegin(untilLoad) => LoopBeginKeeps(g, untilLoad);
    case RunEnd(restored) => LoopEndKeeps(g, restored);
  }

  lemma BrowserCallKeepsInv(env: Env, g: Globals, e: Event)
    requires Inv(g) && (e.CreateBegin? || e.LoadUrl? || e.CloseBrowser? || e.SetScript? || e.Shutdown?)
    ensures Inv(Step(env, g, e))
  {
    match e
    case CreateBegin(_) => CreateKeeps(g, e.autoClose);
    case LoadUrl(id, converts) => LoadUrlKeeps(env, g, id, converts);
    case CloseBrowser(_) => CloseKeeps(env, g, g.browser);
    case SetScript(_, _, _) => SetScriptKeeps(env, g, e);
    case Shutdown => ShutdownKeeps(g);
  }

  lemma StepKeepsInv(env: Env, g: Globals, e: Event)
    requires Inv(g)
    ensures Inv(Step(env, g, e))
  {
    if e.IsCallback() {
      CallbackKeepsInv(env, g, e);
    } else if e.Initialize? || e.CreateEnd? || e.RunBegin? || e.RunEnd? {
      SettingKeepsInv(env, g, e);
    } else {
      BrowserCallKeepsInv(env, g, e);
    }
  }

  /** Whatever the order of calls and callbacks: references and script blocks balance,
      close_browser is called at most once per reset or load, and the flags tell what
      happened since. */
  lemma {:induction false} EveryRunKeepsInv(env: Env, g: Globals, events: seq<Event>)
    requires Inv(g)
    ensures Inv(Run(env, g, events))
    decreases |events|
  {
    if events != [] {
      StepKeepsInv(env, g, events[0]);
      EveryRunKeepsInv(env, Step(env, g, events[0]), events[1..]);
    }
  }

  lemma RunFromStart(env: Env, events: seq<Event>)
    ensures
      var g := Run(env, Init(), events);
      RefsBalanced(g.log, g.browser) && BlocksBalanced(g.log, g.script, g.nextBlock) && CountSince(g.log, Close) <= 1
  {
    EveryRunKeepsInv(env, Init(), events);
  }

  /** The message loop reports STOPPED exactly when, since the last reset or load, a
      load end and no load error was reported, and the browser has closed since the
      last reset. So a recorded load error is never followed by STOPPED. */
  lemma VerdictTells(env: Env, events: seq<Event>)
    ensures
      var g := Run(env, Init(), events);
      LoopVerdict(g) == Stopped <==>
        CountSince(g.log, Ended) >= 1 && CountSince(g.log, Errored) == 0 && CountSince(g.log, Closed) >= 1
  {
    EveryRunKeepsInv(env, Init(), events);
  }

  // ----- how often a finished load is reported -----

  /** A console result arrives while a script is still installed although the load is
      complete already: the one guard that does not look at load_complete. */
  predicate DoubleReport(g: Globals, e: Event)
  {
    e.ConsoleMessage? && e.result && g.loadComplete && g.script.Some?
  }

  /** The count and the flag agree; part of `Inv`. */
  predicate Tallies(g: Globals)
  {
    g.reports >= 1 <==> g.loadComplete
  }

  lemma FinishTallies(env: Env, g: Globals, browser: Option<Browser>)
    ensures AfterLoad(env, g, browser).reports == g.reports && AfterLoad(env, g, browser).loadComplete == g.loadComplete
    ensures AfterLoad(env, g, browser).script == g.script
  {
  }

  /** What a step does to the count, the flag and the script, when it may report a load. */
  predicate Reporting(g: Globals, e: Event, h: Globals)
  {
    && Tallies(h)
    && g.reports <= h.reports <= g.reports + 1
    && (h.reports > g.reports && g.loadComplete <==> DoubleReport(g, e))
    && (h.script == g.script || h.script.None?)
    && (h.reports > g.reports ==> h.script.None? || (e.LoadEnd? && !(e.executable && e.converts)))
  }

  lemma LoadEndReports(env: Env, g: Globals, e: Event)
    requires e.LoadEnd? && Tallies(g)
    ensures Reporting(g, e, Step(env, g, e))
  {
    FinishTallies(env, ReportLoad(g, BrowserId(env, g, e.browser), e.status), e.browser);
  }

  lemma StateChangeReports(env: Env, g: Globals, e: Event)
    requires e.LoadingStateChange? && Tallies(g)
    ensures Reporting(g, e, Step(env, g, e))
  {
  }

  lemma ConsoleReports(env: Env, g: Globals, e: Event)
    requires e.ConsoleMessage? && Tallies(g)
    ensures Reporting(g, e, Step(env, g, e))
  {
    FinishTallies(env, ClearScript(ReportLoad(g, BrowserId(env, g, e.browser), 200)), e.browser);
  }

  lemma ReportingStep(env: Env, g: Globals, e: Event)
    requires e.MayReport() && Tallies(g)
    ensures Reporting(g, e, Step(env, g, e))
  {
    match e
    case LoadEnd(_, _, _, _, _) => LoadEndReports(env, g, e);
    case LoadingStateChange(_, _) => StateChangeReports(env, g, e);
    case ConsoleMessage(_, _) => ConsoleReports(env, g, e);
  }

  /** The count and the flag stay, or start again; a script can only go. */
  predicate Quiet(g: Globals, h: Globals)
  {
    && ((h.reports == g.reports && h.loadComplete == g.loadComplete) || (h.reports == 0 && !h.loadComplete))
    && (h.script == g.script || h.script.None?)
  }

  lemma ReleaseIsQuiet(g: Globals)
    ensures Quiet(g, ReleaseBrowserRef(g))
  {
  }

  lemma ClearIsQuiet(g: Globals)
    ensures Quiet(g, ClearScript(g))
  {
  }

  lemma CloseIsQuiet(env: Env, g: Globals, browser: Option<Browser>)
    ensures Quiet(g, RequestClose(env, g, browser))
  {
  }

  lemma StoreIsQuiet(g: Globals, browser: Option<Browser>)
    ensures Quiet(g, StoreBrowserRef(g, browser))
  {
  }

  lemma ApiCallIsQuiet(env: Env, g: Globals, e: Event)
    requires !e.IsCallback() && !e.SetScript?
    ensures Quiet(g, Step(env, g, e))
  {
    match e
    case CreateBegin(_) =>
      var h := Blanked(g);
      ClearIsQuiet(h);
      ReleaseIsQuiet(ClearScript(h));
    case CloseBrowser(_) => CloseIsQuiet(env, g, g.browser);
    case Shutdown =>
      ClearIsQuiet(g);
      ReleaseIsQuiet(ClearScript(g));
    case _ =>
  }

  lemma CallbackIsQuiet(env: Env, g: Globals, e: Event)
    requires e.IsCallback() && !e.MayReport()
    ensures Quiet(g, Step(env, g, e))
  {
    match e
    case AfterCreated(b) => StoreIsQuiet(g, b);
    case BeforeClose(b) =>
      var id := BrowserId(env, g, b);
      ReleaseIsQuiet(ReportClosed(g, id));
    case LoadError(b, _, code) =>
      var id := BrowserId(env, g, b);
      CloseIsQuiet(env, ReportFailed(g, id, code), b);
  }

  lemma SetScriptIsQuiet(env: Env, g: Globals, e: Event)
    requires e.SetScript?
    ensures var h := ShimSetScript(env, g, e); Quiet(g, if e.empty then h else h.(script := None))
  {
    ClearIsQuiet(g);
  }

  lemma OtherStep(env: Env, g: Globals, e: Event)
    requires !e.MayReport()
    ensures var h := Step(env, g, e); Quiet(g, if e.SetScript? && !e.empty then h.(script := None) else h)
  {
    if e.SetScript? {
      SetScriptIsQuiet(env, g, e);
    } else if e.IsCallback() {
      CallbackIsQuiet(env, g, e);
    } else {
      ApiCallIsQuiet(env, g, e);
    }
  }

  /** From a state with at most one report since the last restart, a step makes it two
      exactly when it is a double report. */
  lemma SecondReport(env: Env, g: Globals, e: Event)
    requires Tallies(g) && g.reports <= 1
    ensures Tallies(Step(env, g, e))
    ensures Step(env, g, e).reports <= 1 <==> !DoubleReport(g, e)
  {
    if e.MayReport() {
      ReportingStep(env, g, e);
    } else {
      OtherStep(env, g, e);
    }
  }

  /** At every point of the run at most one finished load has been reported since the
      last reset or load. */
  predicate AtMostOneThroughout(env: Env, g: Globals, events: seq<Event>)
    decreases |events|
  {
    g.reports <= 1 && (events == [] || AtMostOneThroughout(env, Step(env, g, events[0]), events[1..]))
  }

  predicate NoDoubleReport(env: Env, g: Globals, events: seq<Event>)
    decreases |events|
  {
    events == [] || (!DoubleReport(g, events[0]) && NoDoubleReport(env, Step(env, g, events[0]), events[1..]))
  }

  /** Load end is reported at most once throughout a run exactly when no console result
      arrives for a script that outlived the completion of its load. */
  lemma {:induction false} ReportedOnceExactly(env: Env, g: Globals, events: seq<Event>)
    requires Tallies(g) && g.reports <= 1
    ensures AtMostOneThroughout(env, g, events) <==> NoDoubleReport(env, g, events)
    decreases |events|
  {
    if events != [] {
      SecondReport(env, g, events[0]);
      if !DoubleReport(g, events[0]) { ReportedOnceExactly(env, Step(env, g, events[0]), events[1..]); }
    }
  }

  /** Scripts are installed before their load completes, and CEF can run them. */
  predicate Orderly(env: Env, g: Globals, events: seq<Event>)
    decreases |events|
  {
    events == [] ||
    (var e := events[0];
     && (e.SetScript? && !e.empty ==> !g.loadComplete)
     && (e.LoadEnd? && g.script.Some? ==> e.executable && e.converts)
     && Orderly(env, Step(env, g, e), events[1..]))
  }

  /** Under that discipline no script is installed once the load is complete. */
  predicate Settled(g: Globals)
  {
    Tallies(g) && g.reports <= 1 && !(g.loadComplete && g.script.Some?)
  }

  lemma OrderlyStep(env: Env, g: Globals, e: Event)
    requires Settled(g)
    requires e.SetScript? && !e.empty ==> !g.loadComplete
    requires e.LoadEnd? && g.script.Some? ==> e.executable && e.converts
    ensures Settled(Step(env, g, e))
  {
    SecondReport(env, g, e);
    if e.MayReport() {
      ReportingStep(env, g, e);
    } else {
      OtherStep(env, g, e);
    }
  }

  /** So load end is reported at most once, on every such run. */
  lemma {:induction false} OrderlyReportsOnce(env: Env, g: Globals, events: seq<Event>)
    requires Settled(g) && Orderly(env, g, events)
    ensures AtMostOneThroughout(env, g, events)
    decreases |events|
  {
    if events != [] {
      OrderlyStep(env, g, events[0]);
      OrderlyReportsOnce(env, Step(env, g, events[0]), events[1..]);
    }
  }

  lemma RunOne(env: Env, g: Globals, events: seq<Event>)
    requires events != []
    ensures Run(env, g, events) == Run(env, Step(env, g, events[0]), events[1..])
    ensures |events| == 1 ==> Run(env, g, events) == Step(env, g, events[0])
  {
  }

  const LATE := [Initialize(true), AfterCreated(Some(1)), LoadEnd(Some(1), true, true, true, 200),
                 SetScript(7, false, true), ConsoleMessage(Some(1), true)]

  /** The plain load: one report, no script. */
  lemma PlainLoad(env: Env) returns (g: Globals)
    requires env == Env(b => Some(7), b => false, b => true, b => true)
    ensures Run(env, Init(), LATE) == Run(env, g, LATE[3..])
    ensures g.reports == 1 && g.loadComplete && g.initialized && g.browser == Some(1) && g.script.None?
  {
    RunOne(env, Init(), LATE);
    var g1 := Step(env, Init(), LATE[0]);
    RunOne(env, g1, LATE[1..]);
    var g2 := Step(env, g1, LATE[1]);
    RunOne(env, g2, LATE[2..]);
    g := Step(env, g2, LATE[2]);
  }

  /** Then a script is installed, and its result reported. */
  lemma LateResult(env: Env, g: Globals)
    requires env == Env(b => Some(7), b => false, b => true, b => true)
    requires g.reports == 1 && g.loadComplete && g.initialized && g.browser == Some(1) && g.script.None?
    ensures Step(env, Step(env, g, LATE[3]), LATE[4]).reports == 2
  {
    var h := Step(env, g, LATE[3]);
    assert h.reports == 1 && h.loadComplete && h.script.Some?;
    ReportingStep(env, h, LATE[4]);
  }

  /** A late script breaks it: after a plain load end, a script is installed and its
      result is reported as a second load end. */
  lemma LateScriptReportsTwice() returns (env: Env)
    ensures CountSince(Run(env, Init(), LATE).log, Ended) == 2
  {
    env := Env(b => Some(7), b => false, b => true, b => true);
    var g := PlainLoad(env);
    LateResult(env, g);
    RunOne(env, g, LATE[3..]);
    RunOne(env, Step(env, g, LATE[3]), LATE[4..]);
    EveryRunKeepsInv(env, Init(), LATE);
  }

  // ----- between two resets -----

  /** A load is started although the browser was asked to close. */
  predicate LoadsAfterClose(env: Env, g: Globals, e: Event)
  {
    e.LoadUrl? && Loads(env, g, e.id, e.converts) && g.closeRequested
  }

  predicate LoadsAfterError(env: Env, g: Globals, e: Event)
  {
    e.LoadUrl? && Loads(env, g, e.id, e.converts) && g.loadFailed
  }

  /** The browser was asked to close at most once since the reset, and the flag says so. */
  predicate ClosedOnce(g: Globals)
  {
    g.closes <= 1 && (g.closes == 1 <==> g.closeRequested)
  }

  /** A load error since the reset is still recorded. */
  predicate ErrorsStay(g: Globals)
  {
    g.errors >= 1 <==> g.loadFailed
  }

  /** What everything but a load does to the two counts and their flags. */
  predicate Ordinary(g: Globals, h: Globals)
  {
    && ((h.closes == g.closes && h.closeRequested == g.closeRequested)
        || (h.closes == g.closes + 1 && !g.closeRequested && h.closeRequested)
        || (h.closes == 0 && !h.closeRequested))
    && ((h.errors == g.errors && h.loadFailed == g.loadFailed)
        || (h.errors == g.errors + 1 && h.loadFailed)
        || (h.errors == 0 && !h.loadFailed))
  }

  /** The counts and their flags stay. */
  predicate Untouched(g: Globals, h: Globals)
  {
    h.closes == g.closes && h.closeRequested == g.closeRequested && h.errors == g.errors && h.loadFailed == g.loadFailed
  }

  lemma DropIsUntouched(g: Globals)
    ensures Untouched(g, ReleaseBrowserRef(g)) && Untouched(g, ClearScript(g))
  {
  }

  lemma StoreIsUntouched(g: Globals, b: Option<Browser>)
    ensures Untouched(g, StoreBrowserRef(g, b))
  {
    DropIsUntouched(g);
  }

  lemma CloseIsOrdinary(env: Env, g: Globals, b: Option<Browser>)
    ensures
      var h := RequestClose(env, g, b);
      && h.errors == g.errors && h.loadFailed == g.loadFailed
      && ((h.closes == g.closes && h.closeRequested == g.closeRequested)
          || (h.closes == g.closes + 1 && !g.closeRequested && h.closeRequested))
  {
  }

  lemma FinishIsOrdinary(env: Env, g: Globals, b: Option<Browser>, id: int, status: int)
    ensures Ordinary(g, AfterLoad(env, ReportLoad(g, id, status), b))
    ensures Ordinary(g, AfterLoad(env, ClearScript(ReportLoad(g, id, status)), b))
  {
    var h := ReportLoad(g, id, status);
    DropIsUntouched(h);
    CloseIsOrdinary(env, h, b);
    CloseIsOrdinary(env, ClearScript(h), b);
  }

  lemma ReportingIsOrdinary(env: Env, g: Globals, e: Event)
    requires e.MayReport()
    ensures Ordinary(g, Step(env, g, e))
  {
    var id := BrowserId(env, g, e.browser);
    match e
    case LoadEnd(b, _, _, _, status) => FinishIsOrdinary(env, g, b, id, status);
    case LoadingStateChange(b, _) => FinishIsOrdinary(env, g, b, id, 0);
    case ConsoleMessage(b, _) => FinishIsOrdinary(env, g, b, id, 200);
  }

  lemma CallbackIsOrdinary(env: Env, g: Globals, e: Event)
    requires e.IsCallback() && !e.MayReport()
    ensures Ordinary(g, Step(env, g, e))
  {
    match e
    case AfterCreated(b) => StoreIsUntouched(g, b);
    case BeforeClose(b) => DropIsUntouched(ReportClosed(g, BrowserId(env, g, b)));
    case LoadError(b, _, code) => CloseIsOrdinary(env, ReportFailed(g, BrowserId(env, g, b), code), b);
  }

  lemma CreateIsOrdinary(env: Env, g: Globals, e: Event)
    requires e.CreateBegin?
    ensures Ordinary(g, Step(env, g, e))
  {
    DropBothIsUntouched(Blanked(g));
  }

  lemma DropBothIsUntouched(g: Globals)
    ensures Untouched(g, ReleaseBrowserRef(ClearScript(g)))
  {
    DropIsUntouched(g);
    DropIsUntouched(ClearScript(g));
  }

  lemma ShutdownIsOrdinary(env: Env, g: Globals, e: Event)
    requires e.Shutdown?
    ensures Ordinary(g, Step(env, g, e))
  {
    DropBothIsUntouched(g);
  }

  lemma ApiCallIsOrdinary(env: Env, g: Globals, e: Event)
    requires !e.IsCallback() && !e.LoadUrl?
    ensures Ordinary(g, Step(env, g, e))
  {
    match e
    case CreateBegin(_) => CreateIsOrdinary(env, g, e);
    case CloseBrowser(_) => CloseIsOrdinary(env, g, g.browser);
    case SetScript(_, _, _) => DropIsUntouched(g);
    case Shutdown => ShutdownIsOrdinary(env, g, e);
    case _ =>
  }

  lemma StepIsOrdinary(env: Env, g: Globals, e: Event)
    requires !e.LoadUrl?
    ensures Ordinary(g, Step(env, g, e))
  {
    if e.MayReport() {
      ReportingIsOrdinary(env, g, e);
    } else if e.IsCallback() {
      CallbackIsOrdinary(env, g, e);
    } else {
      ApiCallIsOrdinary(env, g, e);
    }
  }

  /** A step breaks either of them exactly when it starts a load after a close, or
      after an error. */
  lemma ResetStep(env: Env, g: Globals, e: Event)
    ensures ClosedOnce(g) ==> (ClosedOnce(Step(env, g, e)) <==> !LoadsAfterClose(env, g, e))
    ensures ErrorsStay(g) ==> (ErrorsStay(Step(env, g, e)) <==> !LoadsAfterError(env, g, e))
  {
    if !e.LoadUrl? { StepIsOrdinary(env, g, e); }
  }

  /** The browser a callback names, or else the stored one, can be closed. */
  predicate CanClose(env: Env, g: Globals, b: Option<Browser>)
  {
    if b.Some? then env.closable(b.value) else g.browser.Some? && env.closable(g.browser.value)
  }

  /** What a step needs, besides the flag, to call close_browser. */
  predicate AsksToClose(env: Env, g: Globals, e: Event)
  {
    match e
    case LoadEnd(b, mainFrame, executable, converts, _) =>
      mainFrame && !g.loadComplete && !(g.script.Some? && executable && converts) && g.autoClose && CanClose(env, g, b)
    case LoadError(b, mainFrame, code) => mainFrame && code != -3 && CanClose(env, g, b)
    case LoadingStateChange(b, loading) =>
      !loading && !g.loadFailed && !g.loadComplete && g.script.None? && g.autoClose && CanClose(env, g, b)
    case ConsoleMessage(b, result) => g.script.Some? && result && g.autoClose && CanClose(env, g, b)
    case CloseBrowser(id) => Addresses(env, g, id) && CanClose(env, g, None)
    case _ => false
  }

  lemma RequestCloses(env: Env, g: Globals, b: Option<Browser>)
    ensures RequestClose(env, g, b).closes == g.closes + if !g.closeRequested && CanClose(env, g, b) then 1 else 0
  {
  }

  lemma FinishCloses(env: Env, g: Globals, b: Option<Browser>)
    ensures AfterLoad(env, g, b).closes == g.closes + if !g.closeRequested && g.autoClose && CanClose(env, g, b) then 1 else 0
  {
    RequestCloses(env, g, b);
  }

  lemma ReportingCloseCounts(env: Env, g: Globals, e: Event)
    requires e.MayReport()
    ensures Step(env, g, e).closes == g.closes + if AsksToClose(env, g, e) && !g.closeRequested then 1 else 0
  {
    var id := BrowserId(env, g, e.browser);
    match e
    case LoadEnd(b, _, _, _, status) => FinishCloses(env, ReportLoad(g, id, status), b);
    case LoadingStateChange(b, _) => FinishCloses(env, ReportLoad(g, id, 0), b);
    case ConsoleMessage(b, _) =>
      DropIsUntouched(ReportLoad(g, id, 200));
      FinishCloses(env, ClearScript(ReportLoad(g, id, 200)), b);
  }

  /** close_browser is called exactly when a step asks for it and the flag is clear. */
  lemma CloseCounts(env: Env, g: Globals, e: Event)
    requires !e.CreateBegin?
    ensures Step(env, g, e).closes == g.closes + if AsksToClose(env, g, e) && !g.closeRequested then 1 else 0
  {
    if e.MayReport() {
      ReportingCloseCounts(env, g, e);
    } else if e.IsCallback() {
      CallbackCloseCounts(env, g, e);
    } else {
      ApiCloseCounts(env, g, e);
    }
  }

  lemma CallbackCloseCounts(env: Env, g: Globals, e: Event)
    requires e.IsCallback() && !e.MayReport()
    ensures Step(env, g, e).closes == g.closes + if AsksToClose(env, g, e) && !g.closeRequested then 1 else 0
  {
    match e
    case AfterCreated(b) => StoreIsUntouched(g, b);
    case BeforeClose(b) => DropIsUntouched(ReportClosed(g, BrowserId(env, g, b)));
    case LoadError(b, _, code) => RequestCloses(env, ReportFailed(g, BrowserId(env, g, b), code), b);
  }

  lemma ApiCloseCounts(env: Env, g: Globals, e: Event)
    requires !e.IsCallback() && !e.CreateBegin?
    ensures Step(env, g, e).closes == g.closes + if AsksToClose(env, g, e) && !g.closeRequested then 1 else 0
  {
    match e
    case SetScript(_, _, _) => DropIsUntouched(g);
    case Shutdown => DropBothIsUntouched(g);
    case _ =>
  }

  /** The browser is asked to close a second time. */
  predicate ClosesAgain(env: Env, g: Globals, e: Event)
  {
    g.closes >= 1 && !g.closeRequested && AsksToClose(env, g, e)
  }

  predicate AtMostOneClose(env: Env, g: Globals, events: seq<Event>)
    decreases |events|
  {
    g.closes <= 1 && (events == [] || AtMostOneClose(env, Step(env, g, events[0]), events[1..]))
  }

  predicate NeverClosesAgain(env: Env, g: Globals, events: seq<Event>)
    decreases |events|
  {
    events == [] || (!ClosesAgain(env, g, events[0]) && NeverClosesAgain(env, Step(env, g, events[0]), events[1..]))
  }

  /** Between resets close_browser is called at most once throughout a run if and only if
      no step asks for it when it has been called and a load has cleared the flag. */
  lemma {:induction false} AtMostOneCloseExactly(env: Env, g: Globals, events: seq<Event>)
    requires g.closes <= 1
    ensures AtMostOneClose(env, g, events) <==> NeverClosesAgain(env, g, events)
    decreases |events|
  {
    if events != [] {
      var e := events[0];
      if e.CreateBegin? { DropBothIsUntouched(Blanked(g)); } else { CloseCounts(env, g, e); }
      if Step(env, g, e).closes <= 1 { AtMostOneCloseExactly(env, Step(env, g, e), events[1..]); }
    }
  }

  predicate LoadFree(events: seq<Event>)
  {
    forall e :: e in events ==> !e.LoadUrl?
  }

  /** As long as no load is started, both stay true. */
  lemma {:induction false} LoadFreeKeeps(env: Env, g: Globals, events: seq<Event>)
    requires LoadFree(events)
    ensures ClosedOnce(g) ==> ClosedOnce(Run(env, g, events))
    ensures ErrorsStay(g) ==> ErrorsStay(Run(env, g, events))
    decreases |events|
  {
    if events != [] {
      ResetStep(env, g, events[0]);
      LoadFreeKeeps(env, Step(env, g, events[0]), events[1..]);
    }
  }

  /** close_browser has been called at most once since the reset, and without another
      load it stays so, whatever happens. */
  ghost predicate OneCloseOnly(env: Env, g: Globals)
  {
    forall events :: LoadFree(events) ==> Run(env, g, events).closes <= 1
  }

  ghost predicate OneCloseThroughout(env: Env, g: Globals, events: seq<Event>)
    decreases |events|
  {
    OneCloseOnly(env, g) && (events == [] || OneCloseThroughout(env, Step(env, g, events[0]), events[1..]))
  }

  predicate NoLoadAfterClose(env: Env, g: Globals, events: seq<Event>)
    decreases |events|
  {
    events == [] || (!LoadsAfterClose(env, g, events[0]) && NoLoadAfterClose(env, Step(env, g, events[0]), events[1..]))
  }

  /** Some browser can be closed, if one was. */
  ghost predicate CloserKnown(env: Env, g: Globals)
  {
    g.closes >= 1 ==> exists b :: env.closable(b)
  }

  /** A load after a close opens the way to a second one: a load error is enough. */
  lemma LoadAllowsSecondClose(env: Env, g: Globals, e: Event)
    requires LoadsAfterClose(env, g, e) && ClosedOnce(g) && CloserKnown(env, g)
    ensures !OneCloseOnly(env, Step(env, g, e))
  {
    var b :| env.closable(b);
    var h, fails := Step(env, g, e), LoadError(Some(b), true, 0);
    assert h.closes == 1 && !h.closeRequested;
    assert Step(env, h, fails).closes == 2;
    RunOne(env, h, [fails]);
    assert LoadFree([fails]) && Run(env, h, [fails]).closes == 2;
  }

  lemma StepKeepsCloser(env: Env, g: Globals, e: Event)
    requires CloserKnown(env, g)
    ensures CloserKnown(env, Step(env, g, e))
  {
    if e.LoadUrl? || Step(env, g, e).closes <= g.closes { return; }
    CloseCounts(env, g, e);
  }

  /** At every moment of a run: close_browser has been called at most once since the
      reset, and nothing but another load can make it a second time, if and only if no
      load was started after a close. */
  lemma {:induction false} ClosedOnceExactly(env: Env, g: Globals, events: seq<Event>)
    requires ClosedOnce(g) && CloserKnown(env, g)
    ensures OneCloseThroughout(env, g, events) <==> NoLoadAfterClose(env, g, events)
    decreases |events|
  {
    forall more | LoadFree(more) ensures Run(env, g, more).closes <= 1 { LoadFreeKeeps(env, g, more); }
    if events != [] {
      if LoadsAfterClose(env, g, events[0]) {
        LoadAllowsSecondClose(env, g, events[0]);
      } else {
        ResetStep(env, g, events[0]);
        StepKeepsCloser(env, g, events[0]);
        ClosedOnceExactly(env, Step(env, g, events[0]), events[1..]);
      }
    }
  }

  /** After such a load the next close is a second one. */
  lemma SecondClose(env: Env, g: Globals, e: Event)
    requires LoadsAfterClose(env, g, e) && ClosedOnce(g) && env.closable(g.browser.value)
    ensures Step(env, Step(env, g, e), CloseBrowser(e.id)).closes == 2
  {
    var h := ShimLoadUrl(env, g, e.id, e.converts);
    assert h.closes == 1 && !h.closeRequested && Addresses(env, h, e.id);
  }

  /** The verdict is not STOPPED after an error since the reset. */
  predicate NotStopped(g: Globals)
  {
    g.errors >= 1 ==> LoopVerdict(g) == Failed
  }

  /** And without another load it never will be, whatever happens. */
  ghost predicate ErrorsCount(env: Env, g: Globals)
  {
    forall events :: LoadFree(events) ==> NotStopped(Run(env, g, events))
  }

  ghost predicate ErrorsCountThroughout(env: Env, g: Globals, events: seq<Event>)
    decreases |events|
  {
    ErrorsCount(env, g) && (events == [] || ErrorsCountThroughout(env, Step(env, g, events[0]), events[1..]))
  }

  predicate NoLoadAfterError(env: Env, g: Globals, events: seq<Event>)
    decreases |events|
  {
    events == [] || (!LoadsAfterError(env, g, events[0]) && NoLoadAfterError(env, Step(env, g, events[0]), events[1..]))
  }

  /** At every moment of a run: a load error since the reset keeps the verdict from
      STOPPED, and nothing but another load can change that, if and only if no load was
      started after an error. */
  lemma {:induction false} ErrorsStayExactly(env: Env, g: Globals, events: seq<Event>)
    requires ErrorsStay(g)
    ensures ErrorsCountThroughout(env, g, events) <==> NoLoadAfterError(env, g, events)
    decreases |events|
  {
    forall more | LoadFree(more) ensures NotStopped(Run(env, g, more)) { LoadFreeKeeps(env, g, more); }
    if events != [] {
      if LoadsAfterError(env, g, events[0]) {
        LoadAllowsStopped(env, g, events[0]);
      } else {
        ResetStep(env, g, events[0]);
        ErrorsStayExactly(env, Step(env, g, events[0]), events[1..]);
      }
    }
  }

  lemma LoadAllowsStopped(env: Env, g: Globals, e: Event)
    requires LoadsAfterError(env, g, e) && ErrorsStay(g)
    ensures !ErrorsCount(env, Step(env, g, e))
  {
    var h, end, closed := Step(env, g, e), LoadEnd(None, true, false, false, 0), BeforeClose(None);
    StoppedAfterError(env, g, e, end);
    RunOne(env, h, [end, closed]);
    RunOne(env, Step(env, h, end), [closed]);
    assert [end, closed][1..] == [closed];
    assert LoadFree([end, closed]);
  }

  /** After such a load STOPPED follows the error: the new load ends and the browser closes. */
  lemma StoppedAfterError(env: Env, g: Globals, e: Event, end: Event)
    requires LoadsAfterError(env, g, e) && ErrorsStay(g)
    requires end.LoadEnd? && end.mainFrame && (g.script.None? || !end.executable || !end.converts)
    ensures
      var h := Step(env, Step(env, Step(env, g, e), end), BeforeClose(None));
      LoopVerdict(h) == Stopped && h.errors >= 1
  {
    var h := ShimLoadUrl(env, g, e.id, e.converts);
    var k := OnLoadEnd(env, h, end);
    FinishTallies(env, ReportLoad(h, BrowserId(env, h, end.browser), end.status), end.browser);
    FinishIsOrdinary(env, h, end.browser, BrowserId(env, h, end.browser), end.status);
    CloseIsOrdinary(env, ReportLoad(h, BrowserId(env, h, end.browser), end.status), end.browser);
    assert k.loadComplete && !k.loadFailed && k.errors >= 1;
  }

  lemma {:induction false} RunSplit(env: Env, g: Globals, before: seq<Event>, after: seq<Event>)
    ensures Run(env, g, before + after) == Run(env, Run(env, g, before), after)
    decreases |before|
  {
    if before == [] {
      assert before + after == after;
    } else {
      assert (before + after)[1..] == before[1..] + after;
      RunSplit(env, Step(env, g, before[0]), before[1..], after);
    }
  }

  lemma RunAround(env: Env, g: Globals, before: Event, events: seq<Event>, after: Event)
    ensures Run(env, g, [before] + events + [after]) == Step(env, Run(env, Step(env, g, before), events), after)
  {
    RunSplit(env, g, [before] + events, [after]);
    RunSplit(env, g, [before], events);
    RunOne(env, g, [before]);
    RunOne(env, Run(env, g, [before] + events), [after]);
  }

  // ----- the globals themselves -----

  datatype Past = Past(reports: nat, closes: nat, errors: nat, log: seq<Effect>)

  /** The C globals as fields, changed in place; `past` is the history. */
  class Shim {
    const env: Env
    var browser: Option<Browser>
    var script: Option<Block>
    var initialized: bool
    var browserId: int
    var loadComplete: bool
    var loadFailed: bool
    var closeRequested: bool
    var browserClosed: bool
    var autoClose: bool
    var quitOnLoad: bool
    var nextBlock: Block // the next block malloc hands out
    ghost var past: Past

    constructor (env: Env)
      ensures this.env == env && View() == Init() && Inv(View())
    {
      this.env := env;
      browser, script, initialized, browserId := None, None, false, 0;
      loadComplete, loadFailed, closeRequested, browserClosed := false, false, false, false;
      autoClose, quitOnLoad := true, false;
      nextBlock, past := 0, Past(0, 0, 0, []);
    }

    ghost function View(): Globals
      reads this
    {
      Globals(browser, script, initialized, browserId, loadComplete, loadFailed, closeRequested, browserClosed,
              autoClose, quitOnLoad, nextBlock, past.reports, past.closes, past.errors, past.log)
    }

    method DropBrowserRef()
      modifies this
      ensures View() == ReleaseBrowserRef(old(View()))
    {
      if browser.None? { return; }
      past := past.(log := past.log + [Release(browser.value)]);
      browser := None;
    }

    method FreeScript()
      modifies this
      ensures View() == ClearScript(old(View()))
    {
      if script.Some? { past := past.(log := past.log + [Free(script.value)]); }
      script := None;
    }

    method DropOwned()
      modifies this
      ensures View() == ReleaseBrowserRef(ClearScript(old(View())))
      ensures browser.None? && script.None?
    {
      FreeScript();
      DropBrowserRef();
    }

    method KeepBrowserRef(b: Option<Browser>)
      modifies this
      ensures View() == StoreBrowserRef(old(View()), b)
    {
      if b.None? || b == browser { return; }
      DropBrowserRef();
      past := past.(log := past.log + [AddRef(b.value)]);
      browser := b;
    }

    method AskToClose(b: Option<Browser>)
      modifies this
      ensures View() == RequestClose(env, old(View()), b)
    {
      if closeRequested { return; }
      var target := if b.None? then browser else b;
      if target.None? || !env.closable(target.value) { return; }
      closeRequested := true;
      past := past.(log := past.log + [CloseHost(target.value)], closes := past.closes + 1);
    }

    method IdentifierOf(b: Option<Browser>) returns (id: int)
      ensures id == BrowserId(env, View(), b)
    {
      id := browserId;
      if b.Some? {
        var known := env.identifier(b.value);
        if known.Some? { id := known.value; }
      }
    }

    method Report(id: int, status: int)
      modifies this
      ensures View() == ReportLoad(old(View()), id, status)
    {
      loadComplete, browserId := true, id;
      past := past.(log := past.log + [ReportLoadEnd(id, status)], reports := past.reports + 1);
    }

    method CloseOrQuit(b: Option<Browser>)
      modifies this
      ensures View() == AfterLoad(env, old(View()), b)
    {
      if autoClose {
        AskToClose(b);
      } else if quitOnLoad {
        past := past.(log := past.log + [QuitLoop]);
      }
    }

    method HandleAfterCreated(b: Option<Browser>)
      modifies this
      ensures View() == OnAfterCreated(env, old(View()), b)
    {
      KeepBrowserRef(b);
      if b.Some? && env.identifier(b.value).Some? {
        browserId := env.identifier(b.value).value;
        past := past.(log := past.log + [ReportCreated(browserId)]);
      }
    }

    method HandleBeforeClose(b: Option<Browser>)
      modifies this
      ensures View() == OnBeforeClose(env, old(View()), b)
    {
      browserId := IdentifierOf(b);
      browserClosed := true;
      past := past.(log := past.log + [ReportBeforeClose(browserId)]);
      assert View() == ReportClosed(old(View()), browserId);
      DropBrowserRef();
      past := past.(log := past.log + [QuitLoop]);
    }

    method HandleLoadEnd(b: Option<Browser>, mainFrame: bool, executable: bool, converts: bool, status: int)
      modifies this
      ensures View() == OnLoadEnd(env, old(View()), LoadEnd(b, mainFrame, executable, converts, status))
    {
      if !mainFrame || loadComplete || closeRequested { return; }
      var id := IdentifierOf(b);
      if script.Some? && executable && converts {
        browserId := id;
        past := past.(log := past.log + [RunScript(script.value)]);
        return;
      }
      Report(id, status);
      CloseOrQuit(b);
    }

    method HandleLoadError(b: Option<Browser>, mainFrame: bool, code: int)
      modifies this
      ensures View() == OnLoadError(env, old(View()), LoadError(b, mainFrame, code))
    {
      if !mainFrame || code == -3 { return; }
      loadFailed := true;
      browserId := IdentifierOf(b);
      past := past.(log := past.log + [ReportLoadError(browserId, code)], errors := past.errors + 1);
      assert View() == ReportFailed(old(View()), browserId, code);
      AskToClose(b);
      past := past.(log := past.log + [QuitLoop]);
    }

    method HandleLoadingStateChange(b: Option<Browser>, loading: bool)
      modifies this
      ensures View() == OnLoadingStateChange(env, old(View()), LoadingStateChange(b, loading))
    {
      if loading || loadFailed || loadComplete || closeRequested || script.Some? { return; }
      var id := IdentifierOf(b);
      Report(id, 0);
      CloseOrQuit(b);
    }

    method HandleConsoleMessage(b: Option<Browser>, result: bool)
      modifies this
      ensures View() == OnConsoleMessage(env, old(View()), ConsoleMessage(b, result))
    {
      if script.Some? && result {
        var id := IdentifierOf(b);
        Report(id, 200);
        FreeScript();
        CloseOrQuit(b);
      }
    }

    method OnCallback(e: Event)
      requires e.IsCallback()
      modifies this
      ensures View() == Step(env, old(View()), e)
    {
      match e
      case AfterCreated(b) => HandleAfterCreated(b);
      case BeforeClose(b) => HandleBeforeClose(b);
      case LoadEnd(b, mainFrame, executable, converts, status) =>
        HandleLoadEnd(b, mainFrame, executable, converts, status);
      case LoadError(b, mainFrame, code) => HandleLoadError(b, mainFrame, code);
      case LoadingStateChange(b, loading) => HandleLoadingStateChange(b, loading);
      case ConsoleMessage(b, result) => HandleConsoleMessage(b, result);
    }

    /** CEF fires these callbacks, in this order, inside a call. */
    method OnCallbacks(events: seq<Event>)
      requires forall e :: e in events ==> e.IsCallback()
      modifies this
      ensures View() == Run(env, old(View()), events)
    {
      var i := 0;
      while i < |events|
        invariant 0 <= i <= |events|
        invariant Run(env, View(), events[i..]) == Run(env, old(View()), events)
      {
        RunOne(env, View(), events[i..]);
        OnCallback(events[i]);
        i := i + 1;
      }
      assert events[i..] == [];
    }

    method Reset()
      modifies this
      ensures View() == ResetBrowserState(old(View()))
    {
      ClearFlags();
      DropOwned();
    }

    method ClearFlags()
      modifies this
      ensures View() == Blanked(old(View()))
    {
      browserId, loadComplete, loadFailed, closeRequested := 0, false, false, false;
      browserClosed, autoClose, quitOnLoad := false, true, false;
      past := Past(0, 0, 0, past.log + [NewBrowser]);
    }

    /** The checks in the order of the source. A second call is answered without asking
        CEF again, and on no path does the argv copy outlive the call. */
    method Initialize(heap: Allocator, request: InitializeRequest) returns (status: Status)
      requires heap.Valid()
      modifies this, heap
      ensures heap.Valid() && heap.live == old(heap.live)
      ensures status == InitializeStatus(request, old(initialized), Copies(heap.grants, old(heap.asked), request.args))
      ensures View() == ShimInitialize(old(View()), status == Running)
    {
      if !request.wellFormed { return InvalidRequest; }
      if initialized { return Running; }
      if !request.apiKnown { return Failed; }
      var storage := new Storage(heap);
      var copied := storage.MakeMainArgs(request.args);
      if !copied { return InvalidRequest; }
      if !request.settings {
        storage.FreeArgv();
        return InvalidRequest;
      }
      if !request.appMade {
        storage.FreeArgv();
        return Failed;
      }
      storage.FreeArgv(); // after cef_initialize has seen the copy
      if !request.initializes { return Failed; }
      initialized := true;
      status := Running;
    }

    /** A request without URL or size changes nothing. Otherwise the state is reset, CEF
        creates the browser, or fails to, after firing some callbacks; it is not asked
        when the URL does not convert. */
    method CreateBrowserSync(request: CreateRequest, events: seq<Event>, created: Option<Browser>)
      returns (status: Status, id: int)
      requires forall e :: e in events ==> e.IsCallback()
      modifies this
      ensures status == CreateStatus(request, created) && id == if status == Running then CreatedId(env, created) else 0
      ensures !request.Valid() ==> View() == old(View())
      ensures request.Valid() && !request.converts ==> View() == CreateBegins(old(View()), request.autoClose)
      ensures request.Valid() && request.converts ==>
        View() == Run(env, old(View()), [CreateBegin(request.autoClose)] + events + [CreateEnd(created)])
    {
      if !request.Valid() { return InvalidRequest, 0; }
      RunAround(env, View(), CreateBegin(request.autoClose), events, CreateEnd(created));
      Reset();
      autoClose := request.autoClose;
      if !request.converts { return InvalidRequest, 0; }
      OnCallbacks(events);
      status, id := CreateResult(created);
    }

    method CreateResult(created: Option<Browser>) returns (status: Status, id: int)
      modifies this
      ensures View() == CreateEnds(env, old(View()), created)
      ensures status == (if created.None? then Failed else Running)
      ensures id == CreatedId(env, created)
    {
      if created.None? { return Failed, 0; }
      status, id := Running, 0;
      if env.identifier(created.value).Some? {
        browserId := env.identifier(created.value).value;
        id := browserId;
      }
    }

    /** RUNNING is returned exactly when the load was started; otherwise nothing changes. */
    method LoadUrl(id: int, url: string, converts: bool) returns (status: Status)
      modifies this
      ensures View() == ShimLoadUrl(env, old(View()), id, url != "" && converts)
      ensures status == Running <==> View() != old(View())
      ensures status == LoadStatus(env, old(View()), id, url, converts)
    {
      if url == "" || id <= 0 { return InvalidRequest; }
      if !initialized || browser.None? || env.identifier(browser.value).None? || !env.framed(browser.value) {
        return Failed;
      }
      if env.identifier(browser.value) != Some(id) { return InvalidRequest; }
      if !env.loadable(browser.value) { return Failed; }
      if !converts { return InvalidRequest; }
      loadComplete, loadFailed, closeRequested := false, false, false;
      past := past.(log := past.log + [NewLoad] + [StartLoad(browser.value)], reports := 0);
      return Running;
    }

    method CloseBrowser(id: int) returns (status: Status)
      modifies this
      ensures View() == Step(env, old(View()), Event.CloseBrowser(id))
      ensures status == if Addresses(env, old(View()), id) then Running else Refusal(env, old(View()), id)
    {
      if id <= 0 { return InvalidRequest; }
      if !initialized || browser.None? || env.identifier(browser.value).None? { return Failed; }
      if env.identifier(browser.value) != Some(id) { return InvalidRequest; }
      AskToClose(browser);
      return Running;
    }

    method SetLoadEndScript(id: int, text: string, grants: bool) returns (status: Status)
      modifies this
      ensures View() == ShimSetScript(env, old(View()), SetScript(id, text == "", Fits(text) && grants))
      ensures !Addresses(env, old(View()), id) ==> status == Refusal(env, old(View()), id)
      ensures Addresses(env, old(View()), id) ==>
        && (status == Running <==> text == "" || script.Some?)
        && (status == InvalidRequest <==> !Fits(text))
        && (status == Failed <==> text != "" && Fits(text) && !grants)
    {
      if id <= 0 { return InvalidRequest; }
      if !initialized || browser.None? || env.identifier(browser.value).None? { return Failed; }
      if env.identifier(browser.value) != Some(id) { return InvalidRequest; }
      FreeScript();
      if text == "" { return Running; }
      if !Fits(text) { return InvalidRequest; }
      if !grants { return Failed; }
      script, past := Some(nextBlock), past.(log := past.log + [Malloc(nextBlock)]);
      nextBlock := nextBlock + 1;
      return Running;
    }

    method BeginLoop(untilLoad: bool)
      requires initialized
      modifies this
      ensures View() == LoopBegins(old(View()), untilLoad)
    {
      if untilLoad { autoClose := true; }
      quitOnLoad := false;
    }

    method EndLoop(untilLoad: bool, previous: bool)
      modifies this
      ensures View() == LoopEnds(old(View()), if untilLoad then Some(previous) else None)
    {
      if untilLoad { autoClose, quitOnLoad := previous, false; }
    }

    /** The plain loop and the one that closes on load; CEF fires the callbacks inside. */
    method RunMessageLoop(untilLoad: bool, events: seq<Event>) returns (status: Status)
      requires forall e :: e in events ==> e.IsCallback()
      modifies this
      ensures !old(initialized) ==> status == InvalidRequest && View() == old(View())
      ensures
        var restored := if untilLoad then Some(old(autoClose)) else None;
        old(initialized) ==>
          && View() == Run(env, old(View()), [RunBegin(untilLoad)] + events + [RunEnd(restored)])
          && status == LoopVerdict(View())
    {
      if !initialized { return InvalidRequest; }
      var previous := autoClose;
      RunAround(env, View(), RunBegin(untilLoad), events, RunEnd(if untilLoad then Some(previous) else None));
      BeginLoop(untilLoad);
      OnCallbacks(events);
      EndLoop(untilLoad, previous);
      status := if loadFailed || !loadComplete || !browserClosed then Failed else Stopped;
    }

    method ShutDown()
      modifies this
      ensures View() == ShimShutdown(old(View()))
      ensures browser.None? && script.None? && !initialized
    {
      DropOwned();
      initialized := false;
    }
  }
}
