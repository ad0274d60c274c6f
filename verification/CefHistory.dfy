/** What the shim has done to CEF and told the host, effect by effect
    (native/cef_shim.c:150-361, 572-866): which step causes which effect, how often, and
    in which order. */
module CefHistory {
  import opened CefArgv
  import opened CefShim
  import opened Wrappers

  /** The step reports a finished load. */
  predicate Finishes(g: Globals, e: Event)
  {
    match e
    case LoadEnd(_, mainFrame, executable, converts, _) =>
      mainFrame && !g.loadComplete && !g.closeRequested && !(g.script.Some? && executable && converts)
    case LoadingStateChange(_, loading) =>
      !loading && !g.loadFailed && !g.loadComplete && !g.closeRequested && g.script.None?
    case ConsoleMessage(_, result) => g.script.Some? && result
    case _ => false
  }

  /** The status a finished load is reported with. */
  function StatusOf(e: Event): int
  {
    match e
    case LoadEnd(_, _, _, _, status) => status
    case ConsoleMessage(_, _) => 200
    case _ => 0
  }

  predicate Fails(e: Event)
  {
    e.LoadError? && e.mainFrame && e.code != -3
  }

  /** The browser close_browser is asked of: the one the callback names, or the stored one. */
  function Target(g: Globals, e: Event): Option<Browser>
  {
    if e.IsCallback() && e.browser.Some? then e.browser else g.browser
  }

  /** The step installs another browser, which gives the old reference back, or drops it. */
  predicate Drops(g: Globals, e: Event)
  {
    || e.BeforeClose? || e.CreateBegin? || e.Shutdown?
    || (e.AfterCreated? && e.browser.Some? && e.browser != g.browser)
  }

  predicate DropsScript(env: Env, g: Globals, e: Event)
  {
    || e.CreateBegin? || e.Shutdown?
    || (e.SetScript? && Addresses(env, g, e.id))
    || (e.ConsoleMessage? && e.result)
  }

  /** Whether a step has this effect. */
  predicate Causes(env: Env, g: Globals, e: Event, x: Effect)
  {
    match x
    case AddRef(b) => e.AfterCreated? && e.browser == Some(b) && g.browser != Some(b)
    case Release(b) => g.browser == Some(b) && Drops(g, e)
    case Malloc(p) => e.SetScript? && Addresses(env, g, e.id) && !e.empty && e.allocates && p == g.nextBlock
    case Free(p) => g.script == Some(p) && DropsScript(env, g, e)
    case CloseHost(b) => AsksToClose(env, g, e) && !g.closeRequested && Target(g, e) == Some(b)
    case QuitLoop => e.BeforeClose? || Fails(e) || (Finishes(g, e) && !g.autoClose && g.quitOnLoad)
    case RunScript(p) =>
      e.LoadEnd? && e.mainFrame && !g.loadComplete && !g.closeRequested && g.script == Some(p) && e.executable && e.converts
    case StartLoad(b) => e.LoadUrl? && Loads(env, g, e.id, e.converts) && g.browser == Some(b)
    case ReportCreated(id) => e.AfterCreated? && e.browser.Some? && env.identifier(e.browser.value) == Some(id)
    case ReportLoadEnd(id, status) => Finishes(g, e) && id == BrowserId(env, g, e.browser) && status == StatusOf(e)
    case ReportLoadError(id, code) => Fails(e) && id == BrowserId(env, g, e.browser) && code == e.code
    case ReportBeforeClose(id) => e.BeforeClose? && id == BrowserId(env, g, e.browser)
    case NewBrowser => e.CreateBegin?
    case NewLoad => e.LoadUrl? && Loads(env, g, e.id, e.converts)
  }

  function Once(b: bool): nat
  {
    if b then 1 else 0
  }

  /** The place of an effect among those of one step: a report comes before what the shim
      does about it, the old reference and block go before the new ones come, and the
      loop is told to quit last. */
  function Rank(x: Effect): nat
  {
    match x
    case NewBrowser => 0
    case NewLoad => 0
    case ReportLoadEnd(_, _) => 1
    case ReportLoadError(_, _) => 1
    case ReportBeforeClose(_) => 1
    case Free(_) => 2
    case Release(_) => 3
    case AddRef(_) => 4
    case Malloc(_) => 4
    case ReportCreated(_) => 5
    case RunScript(_) => 6
    case StartLoad(_) => 6
    case CloseHost(_) => 7
    case QuitLoop => 8
  }

  /** Exactly the effects the step causes, each once, in order of rank. */
  ghost predicate Tells(env: Env, g: Globals, e: Event, added: seq<Effect>)
  {
    && (forall x :: x in added <==> Causes(env, g, e, x))
    && (forall i, j :: 0 <= i < j < |added| ==> Rank(added[i]) < Rank(added[j]))
  }

  // ----- one step -----

  function ReleaseEffect(g: Globals): seq<Effect>
  {
    if g.browser.Some? then [Release(g.browser.value)] else []
  }

  function FreeEffect(g: Globals): seq<Effect>
  {
    if g.script.Some? then [Free(g.script.value)] else []
  }

  function StoreEffect(g: Globals, b: Option<Browser>): seq<Effect>
  {
    if b.Some? && b != g.browser then ReleaseEffect(g) + [AddRef(b.value)] else []
  }

  /** Closing or quitting behind a finished load. */
  function AfterEffect(env: Env, g: Globals, e: Event): seq<Effect>
  {
    if g.autoClose then CloseEffect(env, g, e) else if g.quitOnLoad then [QuitLoop] else []
  }

  function CloseEffect(env: Env, g: Globals, e: Event): seq<Effect>
  {
    if !g.closeRequested && Target(g, e).Some? && env.closable(Target(g, e).value) then [CloseHost(Target(g, e).value)] else []
  }

  /** The effects of a step, by its kind. */
  function Effects(env: Env, g: Globals, e: Event): seq<Effect>
  {
    match e
    case AfterCreated(b) =>
      StoreEffect(g, b) + (if b.Some? && env.identifier(b.value).Some? then [ReportCreated(env.identifier(b.value).value)] else [])
    case BeforeClose(b) => [ReportBeforeClose(BrowserId(env, g, b))] + ReleaseEffect(g) + [QuitLoop]
    case LoadError(b, _, code) =>
      if Fails(e) then [ReportLoadError(BrowserId(env, g, b), code)] + CloseEffect(env, g, e) + [QuitLoop] else []
    case ConsoleMessage(b, _) =>
      if Finishes(g, e) then [ReportLoadEnd(BrowserId(env, g, b), 200)] + FreeEffect(g) + AfterEffect(env, g, e) else []
    case LoadingStateChange(b, _) =>
      if Finishes(g, e) then [ReportLoadEnd(BrowserId(env, g, b), 0)] + AfterEffect(env, g, e) else []
    case LoadEnd(b, mainFrame, _, _, status) =>
      if Finishes(g, e) then [ReportLoadEnd(BrowserId(env, g, b), status)] + AfterEffect(env, g, e)
      else if mainFrame && !g.loadComplete && !g.closeRequested then [RunScript(g.script.value)]
      else []
    case CreateBegin(_) => [NewBrowser] + FreeEffect(g) + ReleaseEffect(g)
    case LoadUrl(id, converts) => if Loads(env, g, id, converts) then [NewLoad, StartLoad(g.browser.value)] else []
    case CloseBrowser(id) => if Addresses(env, g, id) then CloseEffect(env, g, e) else []
    case SetScript(id, empty, allocates) =>
      if !Addresses(env, g, id) then []
      else FreeEffect(g) + if empty || !allocates then [] else [Malloc(g.nextBlock)]
    case Shutdown => FreeEffect(g) + ReleaseEffect(g)
    case _ => []
  }

  lemma ReleaseAdds(g: Globals)
    ensures ReleaseBrowserRef(g).log == g.log + ReleaseEffect(g)
    ensures var h := ReleaseBrowserRef(g); h.script == g.script && h.closeRequested == g.closeRequested
  {
  }

  lemma FreeAdds(g: Globals)
    ensures ClearScript(g).log == g.log + FreeEffect(g)
    ensures
      var h := ClearScript(g);
      && h.browser == g.browser && h.closeRequested == g.closeRequested
      && h.autoClose == g.autoClose && h.quitOnLoad == g.quitOnLoad
  {
  }

  lemma CloseAdds(env: Env, g: Globals, h: Globals, e: Event, b: Option<Browser>)
    requires h.browser == g.browser && h.closeRequested == g.closeRequested
    requires Target(g, e) == if b.None? then g.browser else b
    ensures RequestClose(env, h, b).log == h.log + CloseEffect(env, g, e)
  {
  }

  lemma AfterAdds(env: Env, g: Globals, h: Globals, e: Event, b: Option<Browser>)
    requires h.browser == g.browser && h.closeRequested == g.closeRequested
    requires h.autoClose == g.autoClose && h.quitOnLoad == g.quitOnLoad
    requires e.IsCallback() && b == e.browser
    ensures AfterLoad(env, h, b).log == h.log + AfterEffect(env, g, e)
  {
    CloseAdds(env, g, h, e, b);
  }

  lemma Assoc(a: seq<Effect>, b: seq<Effect>, c: seq<Effect>)
    ensures a + b + c == a + (b + c)
  {
  }

  lemma CreatedAdds(env: Env, g: Globals, e: Event)
    requires e.AfterCreated?
    ensures Step(env, g, e).log == g.log + Effects(env, g, e)
  {
    StoreAdds(g, e.browser);
    if e.browser.Some? && env.identifier(e.browser.value).Some? {
      Assoc(g.log, StoreEffect(g, e.browser), [ReportCreated(env.identifier(e.browser.value).value)]);
    }
  }

  lemma StoreAdds(g: Globals, b: Option<Browser>)
    ensures StoreBrowserRef(g, b).log == g.log + StoreEffect(g, b)
  {
    ReleaseAdds(g);
    if b.Some? && b != g.browser { Assoc(g.log, ReleaseEffect(g), [AddRef(b.value)]); }
  }

  lemma ClosedAdds(env: Env, g: Globals, e: Event)
    requires e.BeforeClose?
    ensures Step(env, g, e).log == g.log + Effects(env, g, e)
  {
    ReleaseAdds(ReportClosed(g, BrowserId(env, g, e.browser)));
  }

  lemma ErrorAdds(env: Env, g: Globals, e: Event)
    requires e.LoadError?
    ensures Step(env, g, e).log == g.log + Effects(env, g, e)
  {
    if Fails(e) { CloseAdds(env, g, ReportFailed(g, BrowserId(env, g, e.browser), e.code), e, e.browser); }
  }

  lemma FinishAdds(env: Env, g: Globals, e: Event)
    requires e.MayReport()
    ensures Step(env, g, e).log == g.log + Effects(env, g, e)
  {
    if Finishes(g, e) {
      var h := ReportLoad(g, BrowserId(env, g, e.browser), StatusOf(e));
      FreeAdds(h);
      AfterAdds(env, g, h, e, e.browser);
      AfterAdds(env, g, ClearScript(h), e, e.browser);
      Assoc(g.log, [ReportLoadEnd(BrowserId(env, g, e.browser), StatusOf(e))], AfterEffect(env, g, e));
      Assoc(g.log + [ReportLoadEnd(BrowserId(env, g, e.browser), StatusOf(e))], FreeEffect(g), AfterEffect(env, g, e));
    }
  }

  lemma DropBothAdds(g: Globals)
    ensures ReleaseBrowserRef(ClearScript(g)).log == g.log + (FreeEffect(g) + ReleaseEffect(g))
  {
    FreeAdds(g);
    ReleaseAdds(ClearScript(g));
    Assoc(g.log, FreeEffect(g), ReleaseEffect(g));
  }

  lemma CreateAdds(env: Env, g: Globals, e: Event)
    requires e.CreateBegin?
    ensures Step(env, g, e).log == g.log + Effects(env, g, e)
  {
    var h := Blanked(g);
    DropBothAdds(h);
    Assoc(g.log, [NewBrowser], FreeEffect(g) + ReleaseEffect(g));
    Assoc([NewBrowser], FreeEffect(g), ReleaseEffect(g));
  }

  lemma ApiAdds(env: Env, g: Globals, e: Event)
    requires !e.IsCallback()
    ensures Step(env, g, e).log == g.log + Effects(env, g, e)
  {
    match e
    case CreateBegin(_) => CreateAdds(env, g, e);
    case LoadUrl(_, _) =>
    case CloseBrowser(_) => CloseAdds(env, g, g, e, g.browser);
    case SetScript(_, _, _) => FreeAdds(g);
    case Shutdown => DropBothAdds(g);
    case _ =>
  }

  lemma StepAdds(env: Env, g: Globals, e: Event)
    ensures Step(env, g, e).log == g.log + Effects(env, g, e)
  {
    if e.MayReport() {
      FinishAdds(env, g, e);
    } else if e.AfterCreated? {
      CreatedAdds(env, g, e);
    } else if e.BeforeClose? {
      ClosedAdds(env, g, e);
    } else if e.LoadError? {
      ErrorAdds(env, g, e);
    } else {
      ApiAdds(env, g, e);
    }
  }

  lemma FinishTells(env: Env, g: Globals, e: Event)
    requires e.MayReport()
    ensures Tells(env, g, e, Effects(env, g, e))
  {
  }

  lemma CreatedTells(env: Env, g: Globals, e: Event)
    requires e.AfterCreated?
    ensures Tells(env, g, e, Effects(env, g, e))
  {
  }

  lemma EndingTells(env: Env, g: Globals, e: Event)
    requires e.BeforeClose? || e.LoadError?
    ensures Tells(env, g, e, Effects(env, g, e))
  {
  }

  lemma ApiTells(env: Env, g: Globals, e: Event)
    requires !e.IsCallback()
    ensures Tells(env, g, e, Effects(env, g, e))
  {
  }

  /** Every step leaves the log as it was and adds exactly the effects it causes, each
      once, in order of rank. */
  lemma StepTells(env: Env, g: Globals, e: Event)
    ensures g.log <= Step(env, g, e).log && Tells(env, g, e, Step(env, g, e).log[|g.log|..])
  {
    StepAdds(env, g, e);
    assert (g.log + Effects(env, g, e))[|g.log|..] == Effects(env, g, e);
    if e.MayReport() {
      FinishTells(env, g, e);
    } else if e.AfterCreated? {
      CreatedTells(env, g, e);
    } else if e.IsCallback() {
      EndingTells(env, g, e);
    } else {
      ApiTells(env, g, e);
    }
  }

  // ----- whole runs -----

  lemma {:induction false} CountAdded(log: seq<Effect>, added: seq<Effect>, x: Effect)
    requires forall i, j :: 0 <= i < j < |added| ==> Rank(added[i]) < Rank(added[j])
    ensures Count(log + added, x) == Count(log, x) + Once(x in added)
    decreases |added|
  {
    if added == [] {
      assert log + added == log;
    } else {
      var front, last := added[..|added| - 1], added[|added| - 1];
      assert log + added == (log + front) + [last];
      CountAdded(log, front, x);
      CountSnoc(log + front, last, x);
      assert x in added <==> x in front || x == last;
      assert last in front ==> false;
    }
  }

  /** How many steps of the run have this effect. */
  function CausedIn(env: Env, g: Globals, events: seq<Event>, x: Effect): nat
    decreases |events|
  {
    if events == [] then 0
    else Once(Causes(env, g, events[0], x)) + CausedIn(env, Step(env, g, events[0]), events[1..], x)
  }

  /** In every run each effect has happened as often as a step caused it, and nothing
      else has. */
  lemma {:induction false} RunCounts(env: Env, g: Globals, events: seq<Event>, x: Effect)
    ensures Count(Run(env, g, events).log, x) == Count(g.log, x) + CausedIn(env, g, events, x)
    decreases |events|
  {
    if events != [] {
      var h := Step(env, g, events[0]);
      StepTells(env, g, events[0]);
      var added := h.log[|g.log|..];
      assert h.log == g.log + added;
      CountAdded(g.log, added, x);
      RunCounts(env, h, events[1..], x);
    }
  }

  // ----- telling the loop to quit -----

  /** The settings of the loop. */
  predicate SameSettings(g: Globals, h: Globals)
  {
    h.autoClose == g.autoClose && h.quitOnLoad == g.quitOnLoad && h.initialized == g.initialized
  }

  /** The helpers change neither the settings nor the browser id. */
  predicate Quiet(g: Globals, h: Globals)
  {
    SameSettings(g, h) && h.browserId == g.browserId
  }

  lemma DropIsQuiet(g: Globals)
    ensures Quiet(g, ReleaseBrowserRef(g)) && Quiet(g, ClearScript(g))
  {
  }

  lemma StoreIsQuiet(g: Globals, b: Option<Browser>)
    ensures Quiet(g, StoreBrowserRef(g, b))
  {
    DropIsQuiet(g);
  }

  lemma DropBothIsQuiet(g: Globals)
    ensures Quiet(g, ReleaseBrowserRef(ClearScript(g)))
  {
    DropIsQuiet(g);
    DropIsQuiet(ClearScript(g));
  }

  lemma CloseIsQuiet(env: Env, g: Globals, b: Option<Browser>)
    ensures Quiet(g, RequestClose(env, g, b))
  {
  }

  lemma AfterIsQuiet(env: Env, g: Globals, b: Option<Browser>)
    ensures Quiet(g, AfterLoad(env, g, b)) && Quiet(g, AfterLoad(env, ClearScript(g), b))
  {
    DropIsQuiet(g);
    CloseIsQuiet(env, g, b);
    CloseIsQuiet(env, ClearScript(g), b);
  }

  /** The browser id is the one CEF gave for the browser of the last callback that was not
      ignored, or of the last creation; a reset clears it. */
  predicate Heeded(g: Globals, e: Event)
  {
    || e.BeforeClose? || e.AfterCreated? || e.CreateEnd? || Fails(e) || Finishes(g, e)
    || (e.LoadEnd? && e.mainFrame && !g.loadComplete && !g.closeRequested)
  }

  predicate IdAndSettings(env: Env, g: Globals, e: Event, h: Globals)
  {
    SameSettings(g, h) && h.browserId == if Heeded(g, e) then BrowserId(env, g, e.browser) else g.browserId
  }

  lemma FinishKeepsSettings(env: Env, g: Globals, e: Event)
    requires e.MayReport()
    ensures IdAndSettings(env, g, e, Step(env, g, e))
  {
    if Finishes(g, e) {
      var h := ReportLoad(g, BrowserId(env, g, e.browser), StatusOf(e));
      AfterIsQuiet(env, h, e.browser);
      assert SameSettings(g, h) && h.browserId == BrowserId(env, g, e.browser);
    }
  }

  lemma CreatedKeepsSettings(env: Env, g: Globals, e: Event)
    requires e.AfterCreated?
    ensures IdAndSettings(env, g, e, Step(env, g, e))
  {
    StoreIsQuiet(g, e.browser);
  }

  lemma ClosedKeepsSettings(env: Env, g: Globals, e: Event)
    requires e.BeforeClose?
    ensures IdAndSettings(env, g, e, Step(env, g, e))
  {
    DropIsQuiet(ReportClosed(g, BrowserId(env, g, e.browser)));
  }

  lemma ErrorKeepsSettings(env: Env, g: Globals, e: Event)
    requires e.LoadError?
    ensures IdAndSettings(env, g, e, Step(env, g, e))
  {
    if Fails(e) { CloseIsQuiet(env, ReportFailed(g, BrowserId(env, g, e.browser), e.code), e.browser); }
  }

  /** A callback leaves the settings alone, and the browser id too when it is ignored. */
  lemma CallbackKeepsSettings(env: Env, g: Globals, e: Event)
    requires e.IsCallback()
    ensures IdAndSettings(env, g, e, Step(env, g, e))
  {
    match e
    case AfterCreated(_) => CreatedKeepsSettings(env, g, e);
    case BeforeClose(_) => ClosedKeepsSettings(env, g, e);
    case LoadError(_, _, _) => ErrorKeepsSettings(env, g, e);
    case _ => FinishKeepsSettings(env, g, e);
  }

  /** load_url, close_browser and the script call leave them all alone. */
  lemma CallKeepsSettings(env: Env, g: Globals, e: Event)
    requires e.LoadUrl? || e.CloseBrowser? || e.SetScript?
    ensures Quiet(g, Step(env, g, e))
  {
    match e
    case LoadUrl(_, _) =>
    case CloseBrowser(_) => CloseIsQuiet(env, g, g.browser);
    case SetScript(_, _, _) => DropIsQuiet(g);
  }

  lemma CreateSets(env: Env, g: Globals, close: bool)
    ensures
      var h := Step(env, g, CreateBegin(close));
      h.autoClose == close && !h.quitOnLoad && h.initialized == g.initialized && h.browserId == 0
  {
    DropBothIsQuiet(Blanked(g));
  }

  lemma ShutdownSets(env: Env, g: Globals)
    ensures
      var h := Step(env, g, Shutdown);
      h.autoClose == g.autoClose && h.quitOnLoad == g.quitOnLoad && !h.initialized && h.browserId == g.browserId
  {
    DropBothIsQuiet(g);
  }

  lemma NoneQuitsOnLoad(env: Env, g: Globals, e: Event)
    requires !g.quitOnLoad
    ensures !Step(env, g, e).quitOnLoad
  {
    if e.IsCallback() {
      CallbackKeepsSettings(env, g, e);
    } else if e.LoadUrl? || e.CloseBrowser? || e.SetScript? {
      CallKeepsSettings(env, g, e);
    } else if e.CreateBegin? {
      CreateSets(env, g, e.autoClose);
    } else if e.Shutdown? {
      ShutdownSets(env, g);
    }
  }

  function Endings(events: seq<Event>): nat
  {
    if events == [] then 0
    else Once(events[0].BeforeClose? || Fails(events[0])) + Endings(events[1..])
  }

  /** quit_loop_on_load is only ever cleared, so the loop is told to quit once for every
      before-close and every failed load of the main frame, and never for a finished one. */
  lemma {:induction false} QuitsExactly(env: Env, g: Globals, events: seq<Event>)
    requires !g.quitOnLoad
    ensures Count(Run(env, g, events).log, QuitLoop) == Count(g.log, QuitLoop) + Endings(events)
    ensures !Run(env, g, events).quitOnLoad
    decreases |events|
  {
    RunCounts(env, g, events, QuitLoop);
    QuitsCaused(env, g, events);
  }

  lemma {:induction false} QuitsCaused(env: Env, g: Globals, events: seq<Event>)
    requires !g.quitOnLoad
    ensures CausedIn(env, g, events, QuitLoop) == Endings(events) && !Run(env, g, events).quitOnLoad
    decreases |events|
  {
    if events != [] {
      NoneQuitsOnLoad(env, g, events[0]);
      QuitsCaused(env, Step(env, g, events[0]), events[1..]);
    }
  }

  // ----- the other globals -----

  /** After every step the browser id is zero after a reset, the one of the browser the
      step is about when it is heeded, and otherwise as before. */
  lemma IdFollows(env: Env, g: Globals, e: Event)
    ensures
      Step(env, g, e).browserId ==
      if e.CreateBegin? then 0 else if Heeded(g, e) then BrowserId(env, g, e.browser) else g.browserId
  {
    if e.IsCallback() {
      CallbackKeepsSettings(env, g, e);
    } else if e.LoadUrl? || e.CloseBrowser? || e.SetScript? {
      CallKeepsSettings(env, g, e);
    } else if e.CreateBegin? {
      CreateSets(env, g, e.autoClose);
    } else if e.Shutdown? {
      ShutdownSets(env, g);
    }
  }

  /** The API can be used from a successful initialize until the shutdown. */
  lemma InitializedFollows(env: Env, g: Globals, e: Event)
    ensures Step(env, g, e).initialized <==> !e.Shutdown? && (g.initialized || (e.Initialize? && e.succeeds))
  {
    if e.IsCallback() {
      CallbackKeepsSettings(env, g, e);
    } else if e.LoadUrl? || e.CloseBrowser? || e.SetScript? {
      CallKeepsSettings(env, g, e);
    } else if e.CreateBegin? {
      CreateSets(env, g, e.autoClose);
    }
  }

  predicate CallbacksOnly(events: seq<Event>)
  {
    forall e :: e in events ==> e.IsCallback()
  }

  lemma {:induction false} CallbacksKeepSettings(env: Env, g: Globals, events: seq<Event>)
    requires CallbacksOnly(events)
    ensures SameSettings(g, Run(env, g, events))
    decreases |events|
  {
    if events != [] {
      CallbackKeepsSettings(env, g, events[0]);
      CallbacksKeepSettings(env, Step(env, g, events[0]), events[1..]);
    }
  }

  /** While the loop runs until load, a finished load asks for the browser to be closed,
      whatever create asked for; afterwards that holds again. */
  lemma UntilLoadCloses(env: Env, g: Globals, events: seq<Event>, e: Event)
    requires g.initialized && CallbacksOnly(events) && e.IsCallback()
    ensures
      var h := Run(env, Step(env, g, RunBegin(true)), events);
      && (Finishes(h, e) && CanClose(env, h, e.browser) ==> AsksToClose(env, h, e))
      && Step(env, Step(env, h, e), RunEnd(Some(g.autoClose))).autoClose == g.autoClose
  {
    CallbacksKeepSettings(env, Step(env, g, RunBegin(true)), events);
  }

  /** In the plain loop a finished load closes the browser exactly when create asked for
      it. */
  lemma PlainLoopKeepsAutoClose(env: Env, g: Globals, close: bool, before: seq<Event>, events: seq<Event>)
    requires CallbacksOnly(before) && CallbacksOnly(events)
    ensures
      var created := Run(env, Step(env, g, CreateBegin(close)), before);
      Run(env, Step(env, created, RunBegin(false)), events).autoClose == close
  {
    var created := Run(env, Step(env, g, CreateBegin(close)), before);
    CreateSets(env, g, close);
    CallbacksKeepSettings(env, Step(env, g, CreateBegin(close)), before);
    CallbacksKeepSettings(env, Step(env, created, RunBegin(false)), events);
  }
}
