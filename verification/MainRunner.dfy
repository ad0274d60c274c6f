/** The main runner (internal/mainrunner/execute.go:47-260, plan.go:48-58, 352-391): the
    general interpreter of a plan, the hand-written fast path for the benchmark plan,
    and when the two agree and quit once. */
module MainRunner {
  import opened Wrappers
  import opened Text
  import Lifecycle
  import Windows

  datatype Action = Mark(name: string) | SetImmediate | EmitTrace | CloseWindow | QuitApp | Other

  /** `url` and `window` are what resolving them gives, if that succeeds. */
  datatype Plan = Plan(url: Option<string>, window: Option<NormalizedWindow>, actions: seq<Action>,
                       allClosed: seq<Action>, script: string)

  datatype NormalizedWindow = NormalizedWindow(bounds: Windows.Rect, show: bool)

  /** `contentsLoads`: whether the event-collecting webContents accepts the URL. */
  datatype Options = Options(trace: bool, benchmarkTrace: bool, out: bool, events: bool, contentsLoads: bool)

  /** What the run does to the outside: driver calls, and the trace it writes. The
      AutoCloseOnLoad flag of create is not part of the call. */
  datatype Call =
    | Create(url: string, width: int, height: int, show: bool)
    | SetScript(id: int, script: string)
    | Wait
    | Load(id: int, url: string)
    | Close(id: int)
    | WriteTrace(keys: set<string>)

  /** Any behaviour of the driver and the writer: how the last call of a history ends. */
  datatype Driver = Driver(scripts: bool, waits: bool, creates: seq<Call> -> Option<int>, accepts: seq<Call> -> bool)

  datatype Error =
    | UrlUnresolved | WindowUnresolved | CreateFailed | NoScriptSupport | ScriptFailed | NoWaitSupport
    | WaitFailed | LoadFailed | ContentsFailed | CloseFailed | UnsupportedAction | TraceFailed

  datatype Report = Report(browserId: int, trace: Option<set<string>>, exitCode: int)

  datatype Outcome = Outcome(result: Result<Report, Error>, calls: seq<Call>)

  // ----- the general interpreter -----

  datatype World = World(app: Lifecycle.State, window: Windows.State, calls: seq<Call>, trace: Option<set<string>>)

  datatype Progress = Go(world: World) | Stop(world: World, error: Error)

  predicate Never(log: seq<Lifecycle.Event>)
  {
    false
  }

  /** One handler for every quit action of the window-all-closed list. */
  function QuitHandlers(actions: seq<Action>): seq<bool>
  {
    if actions == [] then [] else (if actions[0].QuitApp? then [true] else []) + QuitHandlers(actions[1..])
  }

  function HandlersOf(plan: Plan): Lifecycle.Handlers
  {
    Lifecycle.Handlers(QuitHandlers(plan.allClosed), Never)
  }

  function Marked(trace: Option<set<string>>, name: string): Option<set<string>>
  {
    if trace.None? || name == "" then trace else Some(trace.value + {name})
  }

  function Act(d: Driver, h: Lifecycle.Handlers, id: int, w: World, a: Action): Progress
  {
    match a
    case Mark(name) => Go(w.(trace := Marked(w.trace, name)))
    case SetImmediate => Go(w)
    case EmitTrace => Go(w)
    case CloseWindow =>
      if w.window.flags.closed then Go(w)
      else
        var closed := w.(window := Windows.Closed(w.window, false), calls := w.calls + [Close(id)]);
        if !d.accepts(closed.calls) then Stop(closed, CloseFailed)
        else Go(closed.(app := Lifecycle.AllWindowsClosed(h, w.app)))
    case QuitApp => Go(w.(app := Lifecycle.QuitApp(h, w.app)))
    case Other => Stop(w, UnsupportedAction)
  }

  function ActAll(d: Driver, h: Lifecycle.Handlers, id: int, w: World, actions: seq<Action>): Progress
    decreases |actions|
  {
    if actions == [] then Go(w)
    else
      var p := Act(d, h, id, w, actions[0]);
      if p.Stop? then p else ActAll(d, h, id, p.world, actions[1..])
  }

  function TraceFrom(opts: Options): Option<set<string>>
  {
    if opts.trace || opts.benchmarkTrace then Some({}) else None
  }

  datatype Start = Started(id: int, world: World) | Refused(error: Error, calls: seq<Call>)

  /** What the interpreter has loaded, before the did-finish-load actions. */
  function Loading(plan: Plan, d: Driver, id: int, calls: seq<Call>): Result<seq<Call>, (Error, seq<Call>)>
    requires plan.url.Some?
  {
    if plan.script == "" then
      var waited := calls + [Wait];
      if !d.waits then Err((NoWaitSupport, calls))
      else if !d.accepts(waited) then Err((WaitFailed, waited))
      else Ok(waited)
    else
      var scripted := calls + [SetScript(id, plan.script)];
      var loaded := scripted + [Load(id, plan.url.value)];
      if !d.scripts then Err((NoScriptSupport, calls))
      else if !d.accepts(scripted) then Err((ScriptFailed, scripted))
      else if !d.accepts(loaded) then Err((LoadFailed, loaded))
      else Ok(loaded)
  }

  function Opening(plan: Plan, d: Driver, opts: Options): Start
  {
    if plan.url.None? then Refused(UrlUnresolved, [])
    else if plan.window.None? then Refused(WindowUnresolved, [])
    else
      var window := plan.window.value;
      var url := if plan.script == "" then plan.url.value else "about:blank";
      var calls := [Create(url, window.bounds.width, window.bounds.height, window.show)];
      var created := d.creates(calls);
      if created.None? then Refused(CreateFailed, calls)
      else
        match Loading(plan, d, created.value, calls)
        case Err(e) => Refused(e.0, e.1)
        case Ok(loaded) =>
          if opts.events && !opts.contentsLoads then Refused(ContentsFailed, loaded)
          else
            Started(created.value,
                    World(Lifecycle.BecomeReady(Lifecycle.Init()), Windows.Init(window.bounds, window.show), loaded,
                          Marked(Marked(Marked(TraceFrom(opts), "app_ready"), "window_created"), "load_start")))
  }

  function Finish(d: Driver, opts: Options, id: int, p: Progress): Outcome
  {
    match p
    case Stop(w, e) => Outcome(Err(e), w.calls)
    case Go(w) =>
      var report := Report(id, w.trace, w.app.exitCode);
      if w.app.quitting && opts.out && opts.benchmarkTrace then
        var written := w.calls + [WriteTrace(if w.trace.Some? then w.trace.value else {})];
        if !d.accepts(written) then Outcome(Err(TraceFailed), written) else Outcome(Ok(report), written)
      else Outcome(Ok(report), w.calls)
  }

  function General(plan: Plan, d: Driver, opts: Options): Outcome
  {
    match Opening(plan, d, opts)
    case Refused(e, calls) => Outcome(Err(e), calls)
    case Started(id, w) => Finish(d, opts, id, ActAll(d, HandlersOf(plan), id, w, plan.actions))
  }

  // ----- the fast path -----

  const OPENING_MARKS: set<string> := {"app_ready", "window_created", "load_start"}
  const FINAL_MARKS: set<string> := {"did_finish_load", "quit_requested"}

  function TraceOf(opts: Options, names: set<string>): Option<set<string>>
  {
    if TraceFrom(opts).None? then None else Some(names)
  }

  function Fast(plan: Plan, d: Driver, opts: Options): Outcome
  {
    if plan.url.None? then Outcome(Err(UrlUnresolved), [])
    else if plan.window.None? then Outcome(Err(WindowUnresolved), [])
    else
      var window := plan.window.value;
      var calls := [Create(plan.url.value, window.bounds.width, window.bounds.height, window.show)];
      var created := d.creates(calls);
      if created.None? then Outcome(Err(CreateFailed), calls)
      else if !d.waits then Outcome(Err(NoWaitSupport), calls)
      else if !d.accepts(calls + [Wait]) then Outcome(Err(WaitFailed), calls + [Wait])
      else
        var trace := TraceOf(opts, OPENING_MARKS + FINAL_MARKS);
        var closed := calls + [Wait] + [Close(created.value)];
        var report := Report(created.value, trace, 0);
        if !d.accepts(closed) then Outcome(Err(CloseFailed), closed)
        else if opts.out && opts.benchmarkTrace then
          var written := closed + [WriteTrace(if trace.Some? then trace.value else {})];
          if !d.accepts(written) then Outcome(Err(TraceFailed), written) else Outcome(Ok(report), written)
        else Outcome(Ok(report), closed)
  }

  // ----- what the actions do to the world -----

  /** Quit has been emitted at most once, and exactly when the app is quitting, with
      code 0. */
  predicate QuitOnce(s: Lifecycle.State)
  {
    Lifecycle.CountOf(s.emitted, Lifecycle.Quit) == (if s.quitting then 1 else 0) && s.exitCode == 0
  }

  lemma AppQuitCounts(h: Lifecycle.Handlers, s: Lifecycle.State)
    requires h.prevents == Never
    ensures
      var t := Lifecycle.AppQuit(h, s, 0);
      && t.quitting && t.exitCode == 0
      && Lifecycle.CountOf(t.emitted, Lifecycle.Quit) == Lifecycle.CountOf(s.emitted, Lifecycle.Quit) + 1
  {
    var before := s.emitted + [Lifecycle.BeforeQuit];
    Lifecycle.CountSnoc(s.emitted, Lifecycle.BeforeQuit, Lifecycle.Quit);
    Lifecycle.CountSnoc(before, Lifecycle.WillQuit, Lifecycle.Quit);
    Lifecycle.CountSnoc(before + [Lifecycle.WillQuit], Lifecycle.Quit, Lifecycle.Quit);
  }

  lemma QuitAppOnce(h: Lifecycle.Handlers, s: Lifecycle.State)
    requires h.prevents == Never && QuitOnce(s)
    ensures var t := Lifecycle.QuitApp(h, s); QuitOnce(t) && t.quitting
  {
    AppQuitCounts(h, s);
  }

  lemma {:induction false} HandlersQuitOnce(h: Lifecycle.Handlers, s: Lifecycle.State, handlers: seq<bool>)
    requires h.prevents == Never && QuitOnce(s)
    ensures var t := Lifecycle.RunHandlers(h, s, handlers); QuitOnce(t) && (s.quitting || true in handlers ==> t.quitting)
    decreases |handlers|
  {
    if handlers != [] {
      QuitAppOnce(h, s);
      HandlersQuitOnce(h, if handlers[0] then Lifecycle.QuitApp(h, s) else s, handlers[1..]);
    }
  }

  /** With a handler, window-all-closed quits at most once; without one it adds a quit. */
  lemma AllClosedQuits(h: Lifecycle.Handlers, s: Lifecycle.State)
    requires h.prevents == Never && QuitOnce(s)
    ensures
      var t := Lifecycle.AllWindowsClosed(h, s);
      && (h.closed != [] ==> QuitOnce(t))
      && (h.closed == [] ==> Lifecycle.CountOf(t.emitted, Lifecycle.Quit) == Lifecycle.CountOf(s.emitted, Lifecycle.Quit) + 1)
      && (s.quitting || h.closed == [] || true in h.closed ==> t.quitting)
      && t.exitCode == 0
  {
    var begun := Lifecycle.Emitted(s, Lifecycle.WindowAllClosed);
    Lifecycle.CountSnoc(s.emitted, Lifecycle.WindowAllClosed, Lifecycle.Quit);
    HandlersQuitOnce(h, begun, h.closed);
    AppQuitCounts(h, Lifecycle.RunHandlers(h, begun, h.closed));
  }

  lemma {:induction false} QuitHandlersQuit(actions: seq<Action>)
    ensures QuitHandlers(actions) == [] || true in QuitHandlers(actions)
    ensures QuitHandlers(actions) != [] <==> QuitApp in actions
  {
    if actions != [] { QuitHandlersQuit(actions[1..]); }
  }

  // ----- the fast path agrees with the interpreter -----

  function MarkNames(actions: seq<Action>): set<string>
  {
    set a | a in actions && a.Mark? && a.name != "" :: a.name
  }

  function WithMarks(trace: Option<set<string>>, names: set<string>): Option<set<string>>
  {
    if trace.None? then None else Some(trace.value + names)
  }

  /** What the action list must be for the fast path to stand for it. */
  predicate Replaceable(actions: seq<Action>)
  {
    Other !in actions && CloseWindow in actions && OPENING_MARKS + MarkNames(actions) == OPENING_MARKS + FINAL_MARKS
  }

  /** The world once all actions have run, when none is unsupported: the window is
      closed if asked, the app quitting with code 0 from then on, the marks added. */
  lemma {:induction false} ActionsRun(d: Driver, h: Lifecycle.Handlers, id: int, w: World, actions: seq<Action>)
    requires h.prevents == Never && (h.closed == [] || true in h.closed)
    requires Other !in actions && Ordinary(w)
    ensures
      var p := ActAll(d, h, id, w, actions);
      var asked := !w.window.flags.closed && CloseWindow in actions;
      var closed := if asked then w.calls + [Close(id)] else w.calls;
      && p.world.calls == closed
      && (p.Stop? <==> asked && !d.accepts(closed)) && (p.Stop? ==> p.error == CloseFailed)
      && (p.Go? ==> p.world.app.exitCode == 0 && (w.window.flags.closed || CloseWindow in actions ==> p.world.app.quitting))
      && (p.Go? ==> p.world.trace == WithMarks(w.trace, MarkNames(actions)))
    decreases |actions|
  {
    if actions == [] {
      assert MarkNames(actions) == {};
      assert w.trace.Some? ==> w.trace.value + {} == w.trace.value;
    } else {
      ActionRuns(d, h, id, w, actions[0]);
      var p := Act(d, h, id, w, actions[0]);
      assert actions == [actions[0]] + actions[1..];
      if p.Go? {
        MarksFirst(actions);
        ActionsRun(d, h, id, p.world, actions[1..]);
        assert w.trace.Some? ==> w.trace.value + MarkNames(actions)
                                 == w.trace.value + MarkNames(actions[..1]) + MarkNames(actions[1..]);
      }
    }
  }

  lemma MarksFirst(actions: seq<Action>)
    requires actions != []
    ensures MarkNames(actions) == MarkNames(actions[..1]) + MarkNames(actions[1..])
  {
  }

  /** One supported action, as `ActionsRun` says it of a list. */
  predicate Ran(d: Driver, id: int, w: World, a: Action, p: Progress)
  {
    var asked := !w.window.flags.closed && a == CloseWindow;
    && p.world.calls == (if asked then w.calls + [Close(id)] else w.calls)
    && (p.Stop? <==> asked && !d.accepts(p.world.calls)) && (p.Stop? ==> p.error == CloseFailed)
    && (p.Go? ==> Ordinary(p.world) && p.world.window.flags.closed == (w.window.flags.closed || asked))
    && p.world.trace == WithMarks(w.trace, MarkNames([a]))
  }

  /** Quits with code 0 only; while the window is open, at most once. */
  predicate Ordinary(w: World)
  {
    && w.app.exitCode == 0
    && (if w.window.flags.closed then w.app.quitting else QuitOnce(w.app))
  }

  lemma MarkRuns(w: World, a: Action)
    ensures
      var trace := if a.Mark? then Marked(w.trace, a.name) else w.trace;
      trace == WithMarks(w.trace, MarkNames([a]))
  {
    assert MarkNames([a]) == if a.Mark? && a.name != "" then {a.name} else {};
    assert w.trace.Some? ==> w.trace.value + {} == w.trace.value;
  }

  lemma CloseRuns(d: Driver, h: Lifecycle.Handlers, id: int, w: World)
    requires h.prevents == Never && (h.closed == [] || true in h.closed) && Ordinary(w)
    ensures Ran(d, id, w, CloseWindow, Act(d, h, id, w, CloseWindow))
  {
    MarkRuns(w, CloseWindow);
    if !w.window.flags.closed { AllClosedQuits(h, w.app); }
  }

  lemma ActionRuns(d: Driver, h: Lifecycle.Handlers, id: int, w: World, a: Action)
    requires h.prevents == Never && (h.closed == [] || true in h.closed) && Ordinary(w) && a != Other
    ensures Ran(d, id, w, a, Act(d, h, id, w, a))
  {
    MarkRuns(w, a);
    if a.CloseWindow? {
      CloseRuns(d, h, id, w);
    } else if a.QuitApp? && !w.app.quitting {
      QuitAppOnce(h, w.app);
    }
  }

  lemma ReadyOnce()
    ensures QuitOnce(Lifecycle.BecomeReady(Lifecycle.Init()))
  {
  }

  /** The started run of a plan, action list by action list. */
  lemma StartedRun(plan: Plan, d: Driver, opts: Options)
    requires Opening(plan, d, opts).Started? && Other !in plan.actions
    ensures
      var s := Opening(plan, d, opts);
      var p := ActAll(d, HandlersOf(plan), s.id, s.world, plan.actions);
      var closed := if CloseWindow in plan.actions then s.world.calls + [Close(s.id)] else s.world.calls;
      && p.world.calls == closed
      && (p.Stop? <==> CloseWindow in plan.actions && !d.accepts(closed)) && (p.Stop? ==> p.error == CloseFailed)
      && (p.Go? ==> p.world.app.exitCode == 0 && (CloseWindow in plan.actions ==> p.world.app.quitting))
      && (p.Go? ==> p.world.trace == TraceOf(opts, OPENING_MARKS + MarkNames(plan.actions)))
  {
    var s := Opening(plan, d, opts);
    ReadyOnce();
    QuitHandlersQuit(plan.allClosed);
    ActionsRun(d, HandlersOf(plan), s.id, s.world, plan.actions);
    if TraceFrom(opts).Some? {
      assert {} + {"app_ready"} + {"window_created"} + {"load_start"} == OPENING_MARKS;
      assert {} + (OPENING_MARKS + MarkNames(plan.actions)) == OPENING_MARKS + MarkNames(plan.actions);
    }
  }

  // ----- what a run asks of the driver -----

  /** The first call: the page itself, or a blank one where a script has to be installed
      before the page is loaded. */
  function CreateCall(plan: Plan): Call
    requires plan.url.Some? && plan.window.Some?
  {
    var window := plan.window.value;
    Create(if plan.script == "" then plan.url.value else "about:blank", window.bounds.width, window.bounds.height, window.show)
  }

  /** The calls before the actions. */
  function Opened(plan: Plan, id: int): seq<Call>
    requires plan.url.Some? && plan.window.Some?
  {
    [CreateCall(plan)] + if plan.script == "" then [Wait] else [SetScript(id, plan.script), Load(id, plan.url.value)]
  }

  /** All calls of a run that nothing stops. */
  function Script(plan: Plan, opts: Options, id: int): seq<Call>
    requires plan.url.Some? && plan.window.Some?
  {
    Opened(plan, id)
    + (if CloseWindow in plan.actions then [Close(id)] else [])
    + (if Writes(plan, opts) then [WriteTrace(OPENING_MARKS + MarkNames(plan.actions))] else [])
  }

  /** The benchmark trace is written when the app quits. */
  predicate Writes(plan: Plan, opts: Options)
  {
    (CloseWindow in plan.actions || QuitApp in plan.actions) && opts.out && opts.benchmarkTrace
  }

  /** The driver carries out these calls, one after the other; the first is create's. */
  predicate Accepts(d: Driver, calls: seq<Call>)
  {
    forall n :: 2 <= n <= |calls| ==> d.accepts(calls[..n])
  }

  /** What a run needs to succeed. */
  predicate Works(plan: Plan, d: Driver, opts: Options)
  {
    && plan.url.Some? && plan.window.Some? && Other !in plan.actions
    && d.creates([CreateCall(plan)]).Some?
    && (if plan.script == "" then d.waits else d.scripts)
    && (opts.events ==> opts.contentsLoads)
    && Accepts(d, Script(plan, opts, d.creates([CreateCall(plan)]).value))
  }

  /** The marks a run reports, when it traces. */
  function MarksOf(plan: Plan, opts: Options): Option<set<string>>
  {
    if opts.trace || opts.benchmarkTrace then Some({"app_ready", "window_created", "load_start"} + MarkNames(plan.actions)) else None
  }

  lemma AcceptsOneMore(d: Driver, calls: seq<Call>, c: Call)
    requires calls != []
    ensures Accepts(d, calls + [c]) <==> Accepts(d, calls) && d.accepts(calls + [c])
  {
    var longer := calls + [c];
    assert longer[..|longer|] == longer;
    assert forall n :: 2 <= n <= |calls| ==> longer[..n] == calls[..n];
  }

  /** The interpreter starts on the actions if and only if the calls before them go
      through. */
  lemma OpensExactly(plan: Plan, d: Driver, opts: Options)
    requires plan.url.Some? && plan.window.Some?
    ensures
      var created := d.creates([CreateCall(plan)]);
      Opening(plan, d, opts).Started? <==>
        && created.Some? && (if plan.script == "" then d.waits else d.scripts) && (opts.events ==> opts.contentsLoads)
        && Accepts(d, Opened(plan, created.value))
    ensures
      var s := Opening(plan, d, opts);
      s.Started? ==> d.creates([CreateCall(plan)]) == Some(s.id) && s.world.calls == Opened(plan, s.id)
  {
    var first := [CreateCall(plan)];
    assert Accepts(d, first);
    if d.creates(first).Some? {
      var id := d.creates(first).value;
      if plan.script == "" {
        AcceptsOneMore(d, first, Wait);
      } else {
        AcceptsOneMore(d, first, SetScript(id, plan.script));
        AcceptsOneMore(d, first + [SetScript(id, plan.script)], Load(id, plan.url.value));
        assert first + [SetScript(id, plan.script)] + [Load(id, plan.url.value)] == Opened(plan, id);
      }
    }
  }

  /** After the actions the app is quitting exactly when one of them closed or quit. */
  lemma {:induction false} QuitsWhenAsked(d: Driver, h: Lifecycle.Handlers, id: int, w: World, actions: seq<Action>)
    requires h.prevents == Never && (h.closed == [] || true in h.closed)
    requires Other !in actions && Ordinary(w) && ActAll(d, h, id, w, actions).Go?
    ensures ActAll(d, h, id, w, actions).world.app.quitting <==> w.app.quitting || CloseWindow in actions || QuitApp in actions
    decreases |actions|
  {
    if actions != [] {
      ActionRuns(d, h, id, w, actions[0]);
      assert actions == [actions[0]] + actions[1..];
      QuitsOnAsking(d, h, id, w, actions[0]);
      QuitsWhenAsked(d, h, id, Act(d, h, id, w, actions[0]).world, actions[1..]);
    }
  }

  lemma QuitsOnAsking(d: Driver, h: Lifecycle.Handlers, id: int, w: World, a: Action)
    requires h.prevents == Never && (h.closed == [] || true in h.closed) && Ordinary(w) && a != Other
    requires Act(d, h, id, w, a).Go?
    ensures Act(d, h, id, w, a).world.app.quitting <==> w.app.quitting || a == CloseWindow || a == QuitApp
  {
    if a.CloseWindow? {
      CloseRuns(d, h, id, w);
    } else if a.QuitApp? && !w.app.quitting {
      QuitAppOnce(h, w.app);
    }
  }

  /** A run succeeds if and only if everything it needs is there, and then it has made
      exactly the calls of its script, in order, and reports the browser, the marks and
      exit code 0. */
  lemma SucceedsExactly(plan: Plan, d: Driver, opts: Options)
    ensures General(plan, d, opts).result.Ok? <==> Works(plan, d, opts)
    ensures Works(plan, d, opts) ==>
      var id := d.creates([CreateCall(plan)]).value;
      General(plan, d, opts)
      == Outcome(Ok(Report(id, MarksOf(plan, opts), 0)), Script(plan, opts, id))
  {
    if plan.url.Some? && plan.window.Some? {
      OpensExactly(plan, d, opts);
      var s := Opening(plan, d, opts);
      if s.Started? {
        if Other in plan.actions {
          UnsupportedStops(d, HandlersOf(plan), s.id, s.world, plan.actions);
        } else {
          StartedSucceeds(plan, d, opts);
        }
      } else if d.creates([CreateCall(plan)]).Some? {
        ScriptStarts(plan, d, opts, d.creates([CreateCall(plan)]).value);
      }
    }
  }

  /** The calls before the actions begin the script. */
  lemma ScriptStarts(plan: Plan, d: Driver, opts: Options, id: int)
    requires plan.url.Some? && plan.window.Some?
    ensures Accepts(d, Script(plan, opts, id)) ==> Accepts(d, Opened(plan, id))
  {
    var first, all := Opened(plan, id), Script(plan, opts, id);
    assert forall n :: 2 <= n <= |first| ==> all[..n] == first[..n];
  }

  lemma StartedSucceeds(plan: Plan, d: Driver, opts: Options)
    requires Opening(plan, d, opts).Started? && Other !in plan.actions
    ensures
      var s := Opening(plan, d, opts);
      && (General(plan, d, opts).result.Ok? <==> Accepts(d, Script(plan, opts, s.id)))
      && (General(plan, d, opts).result.Ok? ==>
            General(plan, d, opts)
            == Outcome(Ok(Report(s.id, TraceOf(opts, OPENING_MARKS + MarkNames(plan.actions)), 0)), Script(plan, opts, s.id)))
  {
    OpensExactly(plan, d, opts);
    StartedRun(plan, d, opts);
    var s := Opening(plan, d, opts);
    var p := ActAll(d, HandlersOf(plan), s.id, s.world, plan.actions);
    ReadyOnce();
    QuitHandlersQuit(plan.allClosed);
    if p.Go? { QuitsWhenAsked(d, HandlersOf(plan), s.id, s.world, plan.actions); }
    var first := Opened(plan, s.id);
    var closed := first + if CloseWindow in plan.actions then [Close(s.id)] else [];
    AcceptsOneMore(d, first, Close(s.id));
    AcceptsOneMore(d, closed, WriteTrace(OPENING_MARKS + MarkNames(plan.actions)));
    assert first + [] == first && closed + [] == closed;
  }

  /** The error of a refused call. */
  function ErrorOf(c: Call): Error
  {
    match c
    case Create(_, _, _, _) => CreateFailed
    case SetScript(_, _) => ScriptFailed
    case Wait => WaitFailed
    case Load(_, _) => LoadFailed
    case Close(_) => CloseFailed
    case WriteTrace(_) => TraceFailed
  }

  /** The last of these calls was refused, and this is its error. */
  predicate RefusedLast(d: Driver, calls: seq<Call>, e: Error)
  {
    && calls != [] && e == ErrorOf(calls[|calls| - 1])
    && (if |calls| == 1 then d.creates(calls).None? else !d.accepts(calls))
  }

  lemma {:induction false} ActionsStop(d: Driver, h: Lifecycle.Handlers, id: int, w: World, actions: seq<Action>)
    requires w.calls != [] && ActAll(d, h, id, w, actions).Stop?
    ensures
      var p := ActAll(d, h, id, w, actions);
      (p.error == UnsupportedAction && Other in actions) || (p.error == CloseFailed && RefusedLast(d, p.world.calls, p.error))
    decreases |actions|
  {
    var p := Act(d, h, id, w, actions[0]);
    if p.Go? { ActionsStop(d, h, id, p.world, actions[1..]); }
  }

  /** A failed run says what failed: what could not be resolved, what the driver cannot do
      or the page refused, an unknown action, or else the last call it made. */
  lemma FailureTells(plan: Plan, d: Driver, opts: Options)
    requires General(plan, d, opts).result.Err?
    ensures
      var o := General(plan, d, opts);
      match o.result.error
      case UrlUnresolved => plan.url.None? && o.calls == []
      case WindowUnresolved => plan.url.Some? && plan.window.None? && o.calls == []
      case NoScriptSupport => plan.script != "" && !d.scripts && |o.calls| == 1
      case NoWaitSupport => plan.script == "" && !d.waits && |o.calls| == 1
      case ContentsFailed => opts.events && !opts.contentsLoads
      case UnsupportedAction => Other in plan.actions
      case e => RefusedLast(d, o.calls, e)
  {
    var s := Opening(plan, d, opts);
    if s.Started? {
      var p := ActAll(d, HandlersOf(plan), s.id, s.world, plan.actions);
      if p.Stop? {
        ActionsStop(d, HandlersOf(plan), s.id, s.world, plan.actions);
      } else {
        CallsGrow(d, HandlersOf(plan), s.id, s.world, plan.actions);
      }
    }
  }

  lemma {:induction false} CallsGrow(d: Driver, h: Lifecycle.Handlers, id: int, w: World, actions: seq<Action>)
    ensures w.calls <= ActAll(d, h, id, w, actions).world.calls
    decreases |actions|
  {
    if actions != [] {
      var p := Act(d, h, id, w, actions[0]);
      if p.Go? { CallsGrow(d, h, id, p.world, actions[1..]); }
    }
  }

  /** For every driver: on a plan without a script whose actions are replaceable, the
      fast path and the interpreter end the same way, with the same calls, trace keys,
      browser id and exit code. */
  lemma FastAgrees(plan: Plan, d: Driver, opts: Options)
    requires plan.script == "" && Replaceable(plan.actions) && (opts.events ==> opts.contentsLoads)
    ensures Fast(plan, d, opts) == General(plan, d, opts)
  {
    if Opening(plan, d, opts).Started? { StartedRun(plan, d, opts); }
  }

  /** The driver that lets everything through, and options that trace. */
  function Willing(): Driver
  {
    Driver(true, true, calls => Some(1), calls => true)
  }

  const TRACING := Options(trace := true, benchmarkTrace := false, out := false, events := false, contentsLoads := true)

  lemma {:induction false} UnsupportedStops(d: Driver, h: Lifecycle.Handlers, id: int, w: World, actions: seq<Action>)
    requires Other in actions
    ensures ActAll(d, h, id, w, actions).Stop?
    decreases |actions|
  {
    var p := Act(d, h, id, w, actions[0]);
    if p.Go? { UnsupportedStops(d, h, id, p.world, actions[1..]); }
  }

  /** And no other action list may take the fast path: the willing driver already tells
      the two apart. */
  lemma AgreesOnlyIfReplaceable(plan: Plan)
    requires plan.script == "" && plan.url.Some? && plan.window.Some?
    ensures Fast(plan, Willing(), TRACING) == General(plan, Willing(), TRACING) <==> Replaceable(plan.actions)
  {
    var d := Willing();
    var s := Opening(plan, d, TRACING);
    if Other in plan.actions {
      UnsupportedStops(d, HandlersOf(plan), s.id, s.world, plan.actions);
    } else {
      StartedRun(plan, d, TRACING);
      if CloseWindow !in plan.actions {
        assert |General(plan, d, TRACING).calls| == 2 && |Fast(plan, d, TRACING).calls| == 3;
      }
    }
  }

  /** The benchmark plan's lists (internal/mainrunner/plan.go:48-58). */
  const BENCHMARK_ACTIONS: seq<Action> := [Mark("did_finish_load"), SetImmediate, Mark("quit_requested"), EmitTrace, CloseWindow, QuitApp]

  lemma BenchmarkPlanAgrees(plan: Plan, d: Driver, opts: Options)
    requires plan.script == "" && plan.actions == BENCHMARK_ACTIONS && (opts.events ==> opts.contentsLoads)
    ensures Fast(plan, d, opts) == General(plan, d, opts)
  {
    var a := plan.actions;
    assert a[0] == Mark("did_finish_load") && a[2] == Mark("quit_requested") && a[4] == CloseWindow;
    assert MarkNames(a) == FINAL_MARKS by {
      assert forall x :: x in a && x.Mark? ==> x == a[0] || x == a[2];
      assert a[0].name in MarkNames(a) && a[2].name in MarkNames(a);
    }
    FastAgrees(plan, d, opts);
  }

  // ----- quitting once -----

  function Quits(w: World): nat
  {
    Lifecycle.CountOf(w.app.emitted, Lifecycle.Quit)
  }

  function CountCloses(calls: seq<Call>): nat
  {
    if calls == [] then 0 else CountCloses(calls[..|calls| - 1]) + if calls[|calls| - 1].Close? then 1 else 0
  }

  lemma ClosesSnoc(calls: seq<Call>, c: Call)
    ensures CountCloses(calls + [c]) == CountCloses(calls) + if c.Close? then 1 else 0
  {
  }

  /** A handler is installed: whatever the action list and the driver, quit is emitted
      at most once. */
  lemma {:induction false} HandledQuitsOnce(d: Driver, h: Lifecycle.Handlers, id: int, w: World, actions: seq<Action>)
    requires h.prevents == Never && h.closed != [] && QuitOnce(w.app)
    ensures QuitOnce(ActAll(d, h, id, w, actions).world.app) && Quits(ActAll(d, h, id, w, actions).world) <= 1
    decreases |actions|
  {
    if actions != [] {
      AllClosedQuits(h, w.app);
      QuitAppOnce(h, w.app);
      var p := Act(d, h, id, w, actions[0]);
      if p.Go? { HandledQuitsOnce(d, h, id, p.world, actions[1..]); }
    }
  }

  /** The driver is asked to close at most once, handler or not. */
  lemma {:induction false} ClosesOnce(d: Driver, h: Lifecycle.Handlers, id: int, w: World, actions: seq<Action>)
    requires CountCloses(w.calls) == if w.window.flags.closed then 1 else 0
    ensures CountCloses(ActAll(d, h, id, w, actions).world.calls) <= 1
    decreases |actions|
  {
    if actions != [] {
      ClosesSnoc(w.calls, Close(id));
      var p := Act(d, h, id, w, actions[0]);
      if p.Go? { ClosesOnce(d, h, id, p.world, actions[1..]); }
    }
  }

  /** Every quit comes right after before-quit and will-quit. */
  lemma {:induction false} QuitsAreAnnounced(d: Driver, h: Lifecycle.Handlers, id: int, w: World, actions: seq<Action>)
    requires Lifecycle.Announced(w.app.emitted)
    ensures Lifecycle.Announced(ActAll(d, h, id, w, actions).world.app.emitted)
    decreases |actions|
  {
    if actions != [] {
      Lifecycle.StepAnnounces(h, w.app, Lifecycle.AllClosed);
      Lifecycle.StepAnnounces(h, w.app, Lifecycle.QuitUnlessQuitting);
      var p := Act(d, h, id, w, actions[0]);
      if p.Go? { QuitsAreAnnounced(d, h, id, p.world, actions[1..]); }
    }
  }

  /** A started run: no close was asked for and no quit emitted yet. */
  lemma StartIsQuiet(plan: Plan, d: Driver, opts: Options)
    requires Opening(plan, d, opts).Started?
    ensures
      var w := Opening(plan, d, opts).world;
      CountCloses(w.calls) == 0 && !w.window.flags.closed && Lifecycle.Announced(w.app.emitted)
  {
    var window := plan.window.value;
    var url := if plan.script == "" then plan.url.value else "about:blank";
    var create := Create(url, window.bounds.width, window.bounds.height, window.show);
    var id := d.creates([create]).value;
    ClosesSnoc([], create);
    assert [] + [create] == [create];
    ClosesSnoc([create], Wait);
    ClosesSnoc([create], SetScript(id, plan.script));
    if plan.url.Some? { ClosesSnoc([create] + [SetScript(id, plan.script)], Load(id, plan.url.value)); }
  }

  /** For every plan: the driver is asked to close at most once, and every quit comes
      right after before-quit and will-quit. */
  lemma PlanClosesOnce(plan: Plan, d: Driver, opts: Options)
    requires Opening(plan, d, opts).Started?
    ensures
      var s := Opening(plan, d, opts);
      var w := ActAll(d, HandlersOf(plan), s.id, s.world, plan.actions).world;
      CountCloses(w.calls) <= 1 && Lifecycle.Announced(w.app.emitted)
  {
    var s := Opening(plan, d, opts);
    StartIsQuiet(plan, d, opts);
    ClosesOnce(d, HandlersOf(plan), s.id, s.world, plan.actions);
    QuitsAreAnnounced(d, HandlersOf(plan), s.id, s.world, plan.actions);
  }

  /** The first close of the list, if it is reached, comes after an app.quit. */
  predicate QuitBeforeClose(actions: seq<Action>)
  {
    exists i, j :: 0 <= i < j < |actions| && actions[i] == QuitApp && actions[j] == CloseWindow
                   && CloseWindow !in actions[..j] && Other !in actions[..j]
  }

  /** The same, scanned from the front. */
  predicate ClosesWhileQuitting(actions: seq<Action>, quitting: bool)
  {
    actions != [] && !actions[0].Other? &&
    if actions[0].CloseWindow? then quitting else ClosesWhileQuitting(actions[1..], quitting || actions[0].QuitApp?)
  }

  /** Some close is reached. */
  predicate Reaches(actions: seq<Action>, j: nat)
  {
    j < |actions| && actions[j] == CloseWindow && CloseWindow !in actions[..j] && Other !in actions[..j]
  }

  lemma ReachesTail(actions: seq<Action>, j: nat)
    requires actions != [] && j > 0
    ensures Reaches(actions, j) <==> actions[0] != CloseWindow && actions[0] != Other && Reaches(actions[1..], j - 1)
  {
  }

  lemma {:induction false} ScanFinds(actions: seq<Action>, quitting: bool)
    ensures ClosesWhileQuitting(actions, quitting) <==>
              exists j: nat :: Reaches(actions, j) && (quitting || QuitApp in actions[..j])
  {
    if actions != [] {
      var now := quitting || actions[0].QuitApp?;
      ScanFinds(actions[1..], now);
      if ClosesWhileQuitting(actions, quitting) {
        if actions[0].CloseWindow? {
          assert Reaches(actions, 0);
        } else {
          var k: nat :| Reaches(actions[1..], k) && (now || QuitApp in actions[1..][..k]);
          ReachesTail(actions, k + 1);
          assert actions[..k + 1] == [actions[0]] + actions[1..][..k];
          assert Reaches(actions, k + 1);
        }
      }
      if j: nat :| Reaches(actions, j) && (quitting || QuitApp in actions[..j]) {
        if j > 0 {
          ReachesTail(actions, j);
          assert actions[..j] == [actions[0]] + actions[1..][..j - 1];
          assert Reaches(actions[1..], j - 1);
        }
      }
    }
  }

  lemma ScanMeaning(actions: seq<Action>)
    ensures ClosesWhileQuitting(actions, false) <==> QuitBeforeClose(actions)
  {
    ScanFinds(actions, false);
    if QuitBeforeClose(actions) {
      var i, j :| 0 <= i < j < |actions| && actions[i] == QuitApp && actions[j] == CloseWindow
                  && CloseWindow !in actions[..j] && Other !in actions[..j];
      assert Reaches(actions, j) && actions[..j][i] == QuitApp;
    }
    if j: nat :| Reaches(actions, j) && QuitApp in actions[..j] {
      var i :| 0 <= i < j && actions[..j][i] == QuitApp;
      assert actions[i] == QuitApp;
    }
  }

  lemma {:induction false} AfterClose(d: Driver, h: Lifecycle.Handlers, id: int, w: World, actions: seq<Action>)
    requires w.window.flags.closed && w.app.quitting
    ensures ActAll(d, h, id, w, actions).world.app == w.app
    decreases |actions|
  {
    if actions != [] {
      var p := Act(d, h, id, w, actions[0]);
      if p.Go? { AfterClose(d, h, id, p.world, actions[1..]); }
    }
  }

  lemma {:induction false} UnhandledScan(d: Driver, h: Lifecycle.Handlers, id: int, w: World, actions: seq<Action>)
    requires h.prevents == Never && h.closed == [] && QuitOnce(w.app) && !w.window.flags.closed
    ensures
      var quits := Quits(ActAll(d, h, id, w, actions).world);
      && (!ClosesWhileQuitting(actions, w.app.quitting) ==> quits <= 1)
      && (ClosesWhileQuitting(actions, w.app.quitting) && d.accepts(w.calls + [Close(id)]) ==> quits == 2)
    decreases |actions|
  {
    if actions != [] {
      AllClosedQuits(h, w.app);
      QuitAppOnce(h, w.app);
      var p := Act(d, h, id, w, actions[0]);
      if actions[0].CloseWindow? {
        if p.Go? { AfterClose(d, h, id, p.world, actions[1..]); }
      } else if p.Go? {
        UnhandledScan(d, h, id, p.world, actions[1..]);
      }
    }
  }

  /** Without a handler: quit is emitted twice exactly when the first close comes after
      an app.quit and the driver carries it out; otherwise at most once. */
  lemma UnhandledQuitsExactly(plan: Plan, d: Driver, opts: Options)
    requires Opening(plan, d, opts).Started? && QuitApp !in plan.allClosed
    ensures
      var s := Opening(plan, d, opts);
      var quits := Quits(ActAll(d, HandlersOf(plan), s.id, s.world, plan.actions).world);
      && quits <= 2
      && (quits == 2 <==> QuitBeforeClose(plan.actions) && d.accepts(s.world.calls + [Close(s.id)]))
  {
    var s := Opening(plan, d, opts);
    ReadyOnce();
    QuitHandlersQuit(plan.allClosed);
    ScanMeaning(plan.actions);
    UnhandledScan(d, HandlersOf(plan), s.id, s.world, plan.actions);
    if !d.accepts(s.world.calls + [Close(s.id)]) {
      RefusedClose(d, HandlersOf(plan), s.id, s.world, plan.actions);
    }
  }

  /** Quit first, then close, with no handler: two quits. */
  lemma QuitThenCloseQuitsTwice(plan: Plan, opts: Options)
    requires Opening(plan, Willing(), opts).Started? && plan.actions == [QuitApp, CloseWindow] && plan.allClosed == []
    ensures
      var s := Opening(plan, Willing(), opts);
      Quits(ActAll(Willing(), HandlersOf(plan), s.id, s.world, plan.actions).world) == 2
  {
    assert plan.actions[0] == QuitApp && plan.actions[1] == CloseWindow && plan.actions[..1] == [QuitApp];
    assert QuitBeforeClose(plan.actions);
    UnhandledQuitsExactly(plan, Willing(), opts);
  }

  /** A refused close ends the run before the app hears of it. */
  lemma {:induction false} RefusedClose(d: Driver, h: Lifecycle.Handlers, id: int, w: World, actions: seq<Action>)
    requires h.prevents == Never && QuitOnce(w.app) && !w.window.flags.closed && !d.accepts(w.calls + [Close(id)])
    ensures Quits(ActAll(d, h, id, w, actions).world) <= 1
    decreases |actions|
  {
    if actions != [] {
      QuitAppOnce(h, w.app);
      var p := Act(d, h, id, w, actions[0]);
      if p.Go? { RefusedClose(d, h, id, p.world, actions[1..]); }
    }
  }

  /** With a handler, whatever the actions and the driver, quit is emitted at most once. */
  lemma HandledPlanQuitsOnce(plan: Plan, d: Driver, opts: Options)
    requires Opening(plan, d, opts).Started? && QuitApp in plan.allClosed
    ensures
      var s := Opening(plan, d, opts);
      Quits(ActAll(d, HandlersOf(plan), s.id, s.world, plan.actions).world) <= 1
  {
    var s := Opening(plan, d, opts);
    ReadyOnce();
    QuitHandlersQuit(plan.allClosed);
    HandledQuitsOnce(d, HandlersOf(plan), s.id, s.world, plan.actions);
  }

  // ----- the parser (internal/mainrunner/plan.go:352-391) -----

  const LOAD_START_MARKS: seq<string> := ["mark('load_start')", "mark(\"load_start\")"]

  /** Where the text is cut: at the first of the markers, if there is one. */
  function CutAt(source: string, markers: seq<string>): (cut: nat)
    ensures cut <= |source|
  {
    if markers == [] then |source|
    else
      var cut, index := CutAt(source, markers[..|markers| - 1]), Index(source, markers[|markers| - 1]);
      if index.Some? && index.value < cut then index.value else cut
  }

  method TrimAfterLoadStartMark(source: string) returns (r: string)
    ensures r == source[..CutAt(source, LOAD_START_MARKS)]
  {
    var cut := |source|;
    for i := 0 to |LOAD_START_MARKS|
      invariant cut == CutAt(source, LOAD_START_MARKS[..i])
    {
      assert LOAD_START_MARKS[..i + 1][..i] == LOAD_START_MARKS[..i];
      var index := Index(source, LOAD_START_MARKS[i]);
      if index.Some? && index.value < cut { cut := index.value; }
    }
    assert LOAD_START_MARKS[..|LOAD_START_MARKS|] == LOAD_START_MARKS;
    r := source[..cut];
  }

  /** What is left holds no marker, and ends where the text ends or a marker starts. */
  lemma {:induction false} TrimmedHasNoMark(source: string, markers: seq<string>, i: nat)
    requires i < |markers| && markers[i] != ""
    ensures !Contains(source[..CutAt(source, markers)], markers[i])
    ensures CutAt(source, markers) == |source| || exists m :: m in markers && Index(source, m) == Some(CutAt(source, markers))
  {
    CutIsLow(source, markers, i);
    CutBefore(source, markers[i], CutAt(source, markers));
  }

  lemma {:induction false} CutIsLow(source: string, markers: seq<string>, i: nat)
    requires i < |markers|
    ensures Index(source, markers[i]).Some? ==> CutAt(source, markers) <= Index(source, markers[i]).value
    ensures CutAt(source, markers) == |source| || exists m :: m in markers && Index(source, m) == Some(CutAt(source, markers))
  {
    var front, last := markers[..|markers| - 1], markers[|markers| - 1];
    assert markers == front + [last];
    if i < |front| {
      CutIsLow(source, front, i);
    } else if front != [] {
      CutIsLow(source, front, 0);
    }
  }

  /** What the parser finds after did-finish-load: the mark names in order, and which of
      the other calls occur in the text. */
  datatype Found = Found(marks: seq<string>, immediate: bool, emits: bool, closes: bool, quits: bool)

  function MarkActions(names: seq<string>): (r: seq<Action>)
    ensures |r| == |names| && forall i :: 0 <= i < |r| ==> r[i] == Mark(names[i])
  {
    if names == [] then [] else [Mark(names[0])] + MarkActions(names[1..])
  }

  function Tail(f: Found): seq<Action>
  {
    (if f.immediate then [SetImmediate] else []) + (if f.emits then [EmitTrace] else [])
    + (if f.closes then [CloseWindow] else []) + (if f.quits then [QuitApp] else [])
  }

  datatype ParseError = MissingHandler | NoActions

  const HANDLER: string := "did-finish-load"

  /** What the text holds between did-finish-load and the load-start mark. `marksOf` is
      what the pattern for mark calls matches. */
  function FoundIn(source: string, marksOf: string -> seq<string>): Option<Found>
  {
    var start := Index(source, HANDLER);
    if start.None? then None
    else
      var rest := source[start.value..];
      var text := rest[..CutAt(rest, LOAD_START_MARKS)];
      Some(Found(marksOf(text), Contains(text, "setImmediate("), Contains(text, "emitTrace()"),
                 Contains(text, ".close()"), Contains(text, "app.quit()")))
  }

  /** A text occurs somewhere in another. */
  ghost predicate Occurs(sub: string, s: string)
  {
    exists k :: 0 <= k <= |s| && sub <= s[k..]
  }

  lemma ContainsIsOccurs(s: string, sub: string)
    ensures Contains(s, sub) <==> Occurs(sub, s)
  {
    if Contains(s, sub) { IndexIsFirst(s, sub, Index(s, sub).value); }
    if Occurs(sub, s) {
      var k :| 0 <= k <= |s| && sub <= s[k..];
      IndexIsFirst(s, sub, k);
    }
  }

  /** The text the parser looks at: from the first did-finish-load on, up to the first
      load-start mark in either quoting. */
  ghost predicate HandlerText(source: string, text: string)
  {
    exists start, end ::
      && 0 <= start <= end <= |source| && text == source[start..end]
      && "did-finish-load" <= source[start..] && (forall k :: 0 <= k < start ==> !("did-finish-load" <= source[k..]))
      && !Occurs("mark('load_start')", text) && !Occurs("mark(\"load_start\")", text)
      && (end == |source| || "mark('load_start')" <= source[end..] || "mark(\"load_start\")" <= source[end..])
  }

  /** The text is cut where it should be. */
  lemma CutIsHandlerText(source: string, start: nat)
    requires Index(source, HANDLER) == Some(start)
    ensures
      var rest := source[start..];
      HandlerText(source, rest[..CutAt(rest, LOAD_START_MARKS)])
  {
    var rest := source[start..];
    var cut := CutAt(rest, LOAD_START_MARKS);
    var text := rest[..cut];
    IndexIsFirst(source, HANDLER, start);
    forall k | 0 <= k < start ensures !(HANDLER <= source[k..]) { IndexIsFirst(source, HANDLER, k); }
    NoMarkOccurs(rest, 0);
    NoMarkOccurs(rest, 1);
    CutEnds(rest);
    assert rest[cut..] == source[start + cut..] && text == source[start..start + cut];
  }

  lemma NoMarkOccurs(rest: string, i: nat)
    requires i < |LOAD_START_MARKS|
    ensures !Occurs(LOAD_START_MARKS[i], rest[..CutAt(rest, LOAD_START_MARKS)])
  {
    TrimmedHasNoMark(rest, LOAD_START_MARKS, i);
    ContainsIsOccurs(rest[..CutAt(rest, LOAD_START_MARKS)], LOAD_START_MARKS[i]);
  }

  lemma CutEnds(rest: string)
    ensures
      var cut := CutAt(rest, LOAD_START_MARKS);
      cut == |rest| || exists m :: m in LOAD_START_MARKS && m <= rest[cut..]
  {
    var cut := CutAt(rest, LOAD_START_MARKS);
    CutIsLow(rest, LOAD_START_MARKS, 0);
    if cut < |rest| {
      var m :| m in LOAD_START_MARKS && Index(rest, m) == Some(cut);
      IndexIsFirst(rest, m, cut);
    }
  }

  /** Each action is found exactly when its call is written in that text, and the marks
      are those of that text. */
  lemma FindsWhatIsWritten(source: string, marksOf: string -> seq<string>) returns (text: string)
    requires Occurs("did-finish-load", source)
    ensures HandlerText(source, text)
    ensures
      var f := FoundIn(source, marksOf);
      && f.Some? && f.value.marks == marksOf(text)
      && (f.value.immediate <==> Occurs("setImmediate(", text)) && (f.value.emits <==> Occurs("emitTrace()", text))
      && (f.value.closes <==> Occurs(".close()", text)) && (f.value.quits <==> Occurs("app.quit()", text))
  {
    ContainsIsOccurs(source, HANDLER);
    var start := Index(source, HANDLER).value;
    CutIsHandlerText(source, start);
    text := source[start..][..CutAt(source[start..], LOAD_START_MARKS)];
    ContainsIsOccurs(text, "setImmediate(");
    ContainsIsOccurs(text, "emitTrace()");
    ContainsIsOccurs(text, ".close()");
    ContainsIsOccurs(text, "app.quit()");
  }

  /** The place of an action behind the marks. */
  function Place(a: Action): nat
  {
    match a
    case Mark(_) => 0
    case SetImmediate => 1
    case EmitTrace => 2
    case CloseWindow => 3
    case QuitApp => 4
    case Other => 5
  }

  /** The calls come behind the marks, each once and in this order, exactly those found. */
  lemma TailExactly(f: Found)
    ensures
      var calls := Tail(f);
      && (SetImmediate in calls <==> f.immediate) && (EmitTrace in calls <==> f.emits)
      && (CloseWindow in calls <==> f.closes) && (QuitApp in calls <==> f.quits)
      && (forall a :: a in calls ==> 1 <= Place(a) <= 4)
      && (forall i, j :: 0 <= i < j < |calls| ==> Place(calls[i]) < Place(calls[j]))
  {
  }

  method ParseDidFinishLoadActions(source: string, marksOf: string -> seq<string>) returns (r: Result<seq<Action>, ParseError>)
    ensures r.Err? && r.error == MissingHandler <==> !Contains(source, HANDLER)
    ensures Contains(source, HANDLER) ==>
      FoundIn(source, marksOf).Some? &&
      (var actions := MarkActions(FoundIn(source, marksOf).value.marks) + Tail(FoundIn(source, marksOf).value);
       r == if actions == [] then Err(NoActions) else Ok(actions))
  {
    var start := Index(source, HANDLER);
    if start.None? { return Err(MissingHandler); }
    var text := TrimAfterLoadStartMark(source[start.value..]);
    var actions := CollectActions(Found(marksOf(text), Contains(text, "setImmediate("), Contains(text, "emitTrace()"),
                                        Contains(text, ".close()"), Contains(text, "app.quit()")));
    r := if actions == [] then Err(NoActions) else Ok(actions);
  }

  method CollectActions(f: Found) returns (actions: seq<Action>)
    ensures actions == MarkActions(f.marks) + Tail(f)
  {
    actions := [];
    for i := 0 to |f.marks|
      invariant actions == MarkActions(f.marks)[..i]
    {
      actions := actions + [Mark(f.marks[i])];
    }
    actions := CollectCalls(actions, f);
  }

  method CollectCalls(marks: seq<Action>, f: Found) returns (actions: seq<Action>)
    ensures actions == marks + Tail(f)
  {
    actions := marks;
    if f.immediate { actions := actions + [SetImmediate]; }
    if f.emits { actions := actions + [EmitTrace]; }
    if f.closes { actions := actions + [CloseWindow]; }
    if f.quits { actions := actions + [QuitApp]; }
  }

  /** The parser never puts the quit first. So every parsed plan quits at most once,
      with or without a handler. */
  lemma ParsedQuitsOnce(f: Found, plan: Plan, d: Driver, opts: Options)
    requires Opening(plan, d, opts).Started? && plan.actions == MarkActions(f.marks) + Tail(f)
    ensures
      var s := Opening(plan, d, opts);
      Quits(ActAll(d, HandlersOf(plan), s.id, s.world, plan.actions).world) <= 1
  {
    if QuitApp in plan.allClosed {
      HandledPlanQuitsOnce(plan, d, opts);
    } else {
      QuitComesLast(f);
      UnhandledQuitsExactly(plan, d, opts);
    }
  }

  lemma QuitComesLast(f: Found)
    ensures !QuitBeforeClose(MarkActions(f.marks) + Tail(f))
  {
  }

  // ----- the interpreter as it runs -----

  method ExecuteAction(d: Driver, id: int, a: Action, app: Lifecycle.App, window: Windows.Window,
                       calls: seq<Call>, trace: Option<set<string>>)
    returns (error: Option<Error>, made: seq<Call>, marked: Option<set<string>>)
    modifies app, window
    ensures
      var p := Act(d, app.handlers, id, old(World(app.View(), window.View(), calls, trace)), a);
      && World(app.View(), window.View(), made, marked) == p.world
      && error == if p.Stop? then Some(p.error) else None
  {
    error, made, marked := None, calls, trace;
    match a
    case Mark(name) =>
      if trace.Some? && name != "" { marked := Some(trace.value + {name}); }
    case SetImmediate =>
    case EmitTrace =>
    case CloseWindow =>
      var done := window.Close(false);
      if done {
        made := calls + [Close(id)];
        if !d.accepts(made) { return Some(CloseFailed), made, marked; }
        var _ := app.WindowAllClosed();
      }
    case QuitApp => app.QuitOnce();
    case Other => error := Some(UnsupportedAction);
  }

  /** Execute on a plan that does not take the fast path. */
  method Execute(plan: Plan, d: Driver, opts: Options) returns (o: Outcome)
    ensures o == General(plan, d, opts)
    ensures o.result.Ok? <==> Works(plan, d, opts)
    ensures o.result.Ok? ==> o.calls == Script(plan, opts, o.result.value.browserId)
  {
    SucceedsExactly(plan, d, opts);
    var app := new Lifecycle.App(HandlersOf(plan));
    var _ := app.MarkReady();
    var trace := Marked(TraceFrom(opts), "app_ready");
    if plan.url.None? { return Outcome(Err(UrlUnresolved), []); }
    if plan.window.None? { return Outcome(Err(WindowUnresolved), []); }
    var url := if plan.script == "" then plan.url.value else "about:blank";
    var calls := [Create(url, plan.window.value.bounds.width, plan.window.value.bounds.height, plan.window.value.show)];
    var created := d.creates(calls);
    if created.None? { return Outcome(Err(CreateFailed), calls); }
    trace := Marked(trace, "window_created");
    var window := new Windows.Window(created.value, plan.window.value.bounds, plan.window.value.show);
    if plan.script != "" {
      if !d.scripts { return Outcome(Err(NoScriptSupport), calls); }
      calls := calls + [SetScript(created.value, plan.script)];
      if !d.accepts(calls) { return Outcome(Err(ScriptFailed), calls); }
    }
    trace := Marked(trace, "load_start");
    if plan.script == "" {
      if !d.waits { return Outcome(Err(NoWaitSupport), calls); }
      calls := calls + [Wait];
      if !d.accepts(calls) { return Outcome(Err(WaitFailed), calls); }
    } else {
      calls := calls + [Load(created.value, plan.url.value)];
      if !d.accepts(calls) { return Outcome(Err(LoadFailed), calls); }
    }
    if opts.events && !opts.contentsLoads { return Outcome(Err(ContentsFailed), calls); }
    o := RunActions(plan, d, opts, created.value, app, window, calls, trace);
  }

  method RunActions(plan: Plan, d: Driver, opts: Options, id: int, app: Lifecycle.App, window: Windows.Window,
                    opening: seq<Call>, marks: Option<set<string>>) returns (o: Outcome)
    requires app.handlers == HandlersOf(plan)
    modifies app, window
    ensures
      var w := old(World(app.View(), window.View(), opening, marks));
      o == Finish(d, opts, id, ActAll(d, HandlersOf(plan), id, w, plan.actions))
  {
    ghost var w := World(app.View(), window.View(), opening, marks);
    var calls, trace, i := opening, marks, 0;
    while i < |plan.actions|
      invariant 0 <= i <= |plan.actions|
      invariant ActAll(d, HandlersOf(plan), id, World(app.View(), window.View(), calls, trace), plan.actions[i..])
                == ActAll(d, HandlersOf(plan), id, w, plan.actions)
    {
      var error;
      error, calls, trace := ExecuteAction(d, id, plan.actions[i], app, window, calls, trace);
      if error.Some? { return Outcome(Err(error.value), calls); }
      i := i + 1;
    }
    if app.quitting && opts.out && opts.benchmarkTrace {
      calls := calls + [WriteTrace(if trace.Some? then trace.value else {})];
      if !d.accepts(calls) { return Outcome(Err(TraceFailed), calls); }
    }
    o := Outcome(Ok(Report(id, trace, app.quitExitCode)), calls);
  }

  /** The fast path; what it returns is what the interpreter would, wherever the action
      list allows it. */
  method ExecuteFastBenchmark(plan: Plan, d: Driver, opts: Options) returns (o: Outcome)
    ensures o == Fast(plan, d, opts)
    ensures plan.script == "" && Replaceable(plan.actions) && !opts.events ==> o == General(plan, d, opts)
  {
    if plan.script == "" && Replaceable(plan.actions) && !opts.events { FastAgrees(plan, d, opts); }
    var trace := Marked(TraceFrom(opts), "app_ready");
    if plan.url.None? { return Outcome(Err(UrlUnresolved), []); }
    if plan.window.None? { return Outcome(Err(WindowUnresolved), []); }
    var window := plan.window.value;
    var calls := [Create(plan.url.value, window.bounds.width, window.bounds.height, window.show)];
    var created := d.creates(calls);
    if created.None? { return Outcome(Err(CreateFailed), calls); }
    trace := Marked(Marked(trace, "window_created"), "load_start");
    if !d.waits { return Outcome(Err(NoWaitSupport), calls); }
    calls := calls + [Wait];
    if !d.accepts(calls) { return Outcome(Err(WaitFailed), calls); }
    if trace.Some? { trace := Some(trace.value + {"did_finish_load"} + {"quit_requested"}); }
    assert trace.Some? ==> trace.value == OPENING_MARKS + FINAL_MARKS;
    calls := calls + [Close(created.value)];
    if !d.accepts(calls) { return Outcome(Err(CloseFailed), calls); }
    if opts.out && opts.benchmarkTrace {
      calls := calls + [WriteTrace(if trace.Some? then trace.value else {})];
      if !d.accepts(calls) { return Outcome(Err(TraceFailed), calls); }
    }
    o := Outcome(Ok(Report(created.value, trace, 0)), calls);
  }
}
