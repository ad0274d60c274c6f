/** The application lifecycle (internal/applifecycle/lifecycle.go:43-179): readiness,
    quitting and the event log, as values and as the object that changes them. */
module Lifecycle {

  datatype Event = WillFinishLaunching | Ready | WindowAllClosed | BeforeQuit | WillQuit | Quit

  type Waiter = int

  /** A waiter that was called, and how many events had been emitted before. */
  datatype Ran = Ran(waiter: Waiter, after: nat)

  /** The handlers of one run. `closed` lists the window-all-closed handlers: one that
      calls quitApp (true) or one that does nothing to the app (false). `prevents` is
      the handlers' choice to cancel the event that ends this log. */
  datatype Handlers = Handlers(closed: seq<bool>, prevents: seq<Event> -> bool)

  datatype State = State(ready: bool, quitting: bool, exitCode: int,
                         waiting: seq<Waiter>, ran: seq<Ran>, emitted: seq<Event>)

  datatype Call =
    | MarkReady
    | WhenReady(waiter: Waiter)
    | AllClosed
    | RequestQuit(code: int)
    | QuitUnlessQuitting
    | Exit(code: int)

  function Init(): State
  {
    State(false, false, 0, [], [], [])
  }

  function Emitted(s: State, e: Event): State
  {
    s.(emitted := s.emitted + [e])
  }

  function BecomeReady(s: State): State
  {
    if s.ready then s
    else
      var emitted := s.emitted + [WillFinishLaunching, Ready];
      s.(ready := true, emitted := emitted, ran := s.ran + AllRan(s.waiting, |emitted|), waiting := [])
  }

  /** These waiters, called one after the other behind so many events. */
  function AllRan(waiters: seq<Waiter>, after: nat): (r: seq<Ran>)
    ensures |r| == |waiters| && forall i :: 0 <= i < |r| ==> r[i] == Ran(waiters[i], after)
  {
    if waiters == [] then [] else [Ran(waiters[0], after)] + AllRan(waiters[1..], after)
  }

  function WaitersOf(ran: seq<Ran>): (r: seq<Waiter>)
    ensures |r| == |ran| && forall i :: 0 <= i < |r| ==> r[i] == ran[i].waiter
  {
    if ran == [] then [] else [ran[0].waiter] + WaitersOf(ran[1..])
  }

  function Await(s: State, w: Waiter): State
  {
    if s.ready then s.(ran := s.ran + [Ran(w, |s.emitted|)]) else s.(waiting := s.waiting + [w])
  }

  function AppQuit(h: Handlers, s: State, code: int): State
  {
    var before := Emitted(s, BeforeQuit);
    if h.prevents(before.emitted) then before
    else
      var will := Emitted(before, WillQuit);
      if h.prevents(will.emitted) then will
      else Emitted(will.(quitting := true, exitCode := code), Quit)
  }

  /** quitApp of the main runner (internal/mainrunner/execute.go:256-260). */
  function QuitApp(h: Handlers, s: State): State
  {
    if s.quitting then s else AppQuit(h, s, 0)
  }

  function RunHandlers(h: Handlers, s: State, handlers: seq<bool>): State
    decreases |handlers|
  {
    if handlers == [] then s
    else RunHandlers(h, if handlers[0] then QuitApp(h, s) else s, handlers[1..])
  }

  function AllWindowsClosed(h: Handlers, s: State): State
  {
    var after := RunHandlers(h, Emitted(s, WindowAllClosed), h.closed);
    if h.closed != [] then after else AppQuit(h, after, 0)
  }

  function ExitNow(s: State, code: int): State
  {
    Emitted(s.(quitting := true, exitCode := code), Quit)
  }

  function Step(h: Handlers, s: State, c: Call): State
  {
    match c
    case MarkReady => BecomeReady(s)
    case WhenReady(w) => Await(s, w)
    case AllClosed => AllWindowsClosed(h, s)
    case RequestQuit(code) => AppQuit(h, s, code)
    case QuitUnlessQuitting => QuitApp(h, s)
    case Exit(code) => ExitNow(s, code)
  }

  function Run(h: Handlers, s: State, calls: seq<Call>): State
  {
    if calls == [] then s else Step(h, Run(h, s, calls[..|calls| - 1]), calls[|calls| - 1])
  }

  // ----- what every run keeps -----

  function CountOf(log: seq<Event>, e: Event): nat
  {
    if log == [] then 0 else CountOf(log[..|log| - 1], e) + if log[|log| - 1] == e then 1 else 0
  }

  lemma CountSnoc(log: seq<Event>, x: Event, e: Event)
    ensures CountOf(log + [x], e) == CountOf(log, e) + if x == e then 1 else 0
  {
  }

  /** The waiters registered by the calls, in order. */
  function Registered(calls: seq<Call>): seq<Waiter>
  {
    if calls == [] then []
    else
      var last := calls[|calls| - 1];
      Registered(calls[..|calls| - 1]) + if last.WhenReady? then [last.waiter] else []
  }

  /** The flags are what the log says: quitting once a quit was emitted, ready once
      (and only once) ready was. */
  predicate LogTells(s: State)
  {
    && (s.quitting <==> CountOf(s.emitted, Quit) >= 1)
    && CountOf(s.emitted, Ready) == (if s.ready then 1 else 0)
    && CountOf(s.emitted, WillFinishLaunching) == CountOf(s.emitted, Ready)
  }

  lemma AppQuitTells(h: Handlers, s: State, code: int)
    requires LogTells(s)
    ensures var t := AppQuit(h, s, code); LogTells(t)
  {
    var before := Emitted(s, BeforeQuit);
    var will := Emitted(before, WillQuit);
    forall e: Event
      ensures CountOf(will.emitted + [Quit], e) == CountOf(s.emitted, e) + if e == BeforeQuit || e == WillQuit || e == Quit then 1 else 0
      ensures CountOf(before.emitted, e) == CountOf(s.emitted, e) + if e == BeforeQuit then 1 else 0
      ensures CountOf(will.emitted, e) == CountOf(s.emitted, e) + if e == BeforeQuit || e == WillQuit then 1 else 0
    {
      CountSnoc(s.emitted, BeforeQuit, e);
      CountSnoc(before.emitted, WillQuit, e);
      CountSnoc(will.emitted, Quit, e);
    }
  }

  lemma {:induction false} HandlersTell(h: Handlers, s: State, handlers: seq<bool>)
    requires LogTells(s)
    ensures var t := RunHandlers(h, s, handlers); LogTells(t)
    decreases |handlers|
  {
    if handlers != [] {
      AppQuitTells(h, s, 0);
      HandlersTell(h, if handlers[0] then QuitApp(h, s) else s, handlers[1..]);
    }
  }

  lemma StepTells(h: Handlers, s: State, c: Call)
    requires LogTells(s)
    ensures LogTells(Step(h, s, c))
  {
    match c
    case MarkReady =>
      var log := s.emitted + [WillFinishLaunching];
      forall e: Event ensures CountOf(s.emitted + [WillFinishLaunching, Ready], e)
                              == CountOf(s.emitted, e) + if e == WillFinishLaunching || e == Ready then 1 else 0
      {
        CountSnoc(s.emitted, WillFinishLaunching, e);
        CountSnoc(log, Ready, e);
        assert log + [Ready] == s.emitted + [WillFinishLaunching, Ready];
      }
    case WhenReady(_) =>
    case AllClosed =>
      ClosedTells(h, s);
    case RequestQuit(code) => AppQuitTells(h, s, code);
    case QuitUnlessQuitting => AppQuitTells(h, s, 0);
    case Exit(code) =>
      forall e: Event { CountSnoc(s.emitted, Quit, e); }
  }

  lemma ClosedTells(h: Handlers, s: State)
    requires LogTells(s)
    ensures var t := AllWindowsClosed(h, s); LogTells(t)
  {
    var begun := Emitted(s, WindowAllClosed);
    forall e: Event { CountSnoc(s.emitted, WindowAllClosed, e); }
    assert LogTells(begun);
    HandlersTell(h, begun, h.closed);
    AppQuitTells(h, RunHandlers(h, begun, h.closed), 0);
  }

  /** The waiters called, then those waiting; and none of the latter once ready. */
  function AllWaiters(s: State): seq<Waiter>
  {
    WaitersOf(s.ran) + s.waiting
  }

  lemma StepKeepsWaiters(h: Handlers, s: State, c: Call)
    requires if s.ready then s.waiting == [] else s.ran == []
    ensures
      var t := Step(h, s, c);
      && AllWaiters(t) == AllWaiters(s) + (if c.WhenReady? then [c.waiter] else [])
      && (if t.ready then t.waiting == [] else t.ran == [])
  {
    match c
    case MarkReady => WaitersOfMore(s.ran, s.waiting, |s.emitted| + 2);
    case WhenReady(w) =>
      WaitersOfMore(s.ran, [w], |s.emitted|);
      assert AllRan([w], |s.emitted|) == [Ran(w, |s.emitted|)];
      assert WaitersOf(s.ran) + (s.waiting + [w]) == AllWaiters(s) + [w];
    case _ => OthersExtend(h, s, c);
  }

  /** In every run: the flags tell the log, ready is announced once, and every waiter
      runs exactly once, in the order of registration, as soon as the app is ready. */
  lemma {:induction false} EveryRun(h: Handlers, calls: seq<Call>)
    ensures
      var s := Run(h, Init(), calls);
      && LogTells(s)
      && WaitersOf(s.ran) + s.waiting == Registered(calls)
      && (if s.ready then s.waiting == [] else s.ran == [])
  {
    if calls != [] {
      var before := calls[..|calls| - 1];
      EveryRun(h, before);
      StepTells(h, Run(h, Init(), before), calls[|calls| - 1]);
      StepKeepsWaiters(h, Run(h, Init(), before), calls[|calls| - 1]);
    }
  }

  lemma WaitersOfMore(ran: seq<Ran>, waiters: seq<Waiter>, after: nat)
    ensures WaitersOf(ran + AllRan(waiters, after)) == WaitersOf(ran) + waiters
  {
  }

  /** Every waiter was called behind the ready event. */
  ghost predicate AfterReady(s: State)
  {
    && (s.ready ==> Ready in s.emitted)
    && forall i :: 0 <= i < |s.ran| ==> s.ran[i].after <= |s.emitted| && Ready in s.emitted[..s.ran[i].after]
  }

  lemma {:induction false} HandlersExtend(h: Handlers, s: State, handlers: seq<bool>)
    ensures var t := RunHandlers(h, s, handlers); s.emitted <= t.emitted && t.ran == s.ran && t.ready == s.ready && t.waiting == s.waiting
    decreases |handlers|
  {
    if handlers != [] { HandlersExtend(h, if handlers[0] then QuitApp(h, s) else s, handlers[1..]); }
  }

  /** No other call takes an event back or calls a waiter. */
  lemma OthersExtend(h: Handlers, s: State, c: Call)
    requires !c.MarkReady? && !c.WhenReady?
    ensures var t := Step(h, s, c); s.emitted <= t.emitted && t.ran == s.ran && t.ready == s.ready && t.waiting == s.waiting
  {
    if c.AllClosed? { HandlersExtend(h, Emitted(s, WindowAllClosed), h.closed); }
  }

  lemma StillAfterReady(s: State, t: State)
    requires AfterReady(s) && s.emitted <= t.emitted && t.ran == s.ran && t.ready == s.ready
    ensures AfterReady(t)
  {
    forall i | 0 <= i < |t.ran| ensures t.ran[i].after <= |t.emitted| && Ready in t.emitted[..t.ran[i].after] {
      assert t.emitted[..t.ran[i].after] == s.emitted[..s.ran[i].after];
    }
  }

  lemma MoreAfterReady(s: State, t: State, waiters: seq<Waiter>)
    requires AfterReady(s) && s.emitted <= t.emitted && Ready in t.emitted && t.ran == s.ran + AllRan(waiters, |t.emitted|)
    ensures AfterReady(t)
  {
    assert t.emitted[..|t.emitted|] == t.emitted;
    StillAfterReady(s, t.(ran := s.ran, ready := s.ready));
  }

  /** In every run no waiter is called before ready has been emitted. */
  lemma {:induction false} WaitersRunAfterReady(h: Handlers, calls: seq<Call>)
    ensures AfterReady(Run(h, Init(), calls))
  {
    if calls != [] {
      var s, c := Run(h, Init(), calls[..|calls| - 1]), calls[|calls| - 1];
      WaitersRunAfterReady(h, calls[..|calls| - 1]);
      var t := Step(h, s, c);
      if c.MarkReady? && !s.ready {
        assert t.emitted[|s.emitted| + 1] == Ready;
        MoreAfterReady(s, t, s.waiting);
      } else if c.WhenReady? && s.ready {
        assert AllRan([c.waiter], |s.emitted|) == [Ran(c.waiter, |s.emitted|)];
        MoreAfterReady(s, t, [c.waiter]);
      } else {
        if !c.MarkReady? && !c.WhenReady? { OthersExtend(h, s, c); }
        StillAfterReady(s, t);
      }
    }
  }

  /** Every quit in the log comes right after its before-quit and will-quit. */
  ghost predicate Announced(log: seq<Event>)
  {
    forall i :: 0 <= i < |log| && log[i] == Quit ==> i >= 2 && log[i - 2] == BeforeQuit && log[i - 1] == WillQuit
  }

  lemma AnnouncedSnoc(log: seq<Event>, e: Event)
    requires Announced(log)
    requires e == Quit ==> |log| >= 2 && log[|log| - 2] == BeforeQuit && log[|log| - 1] == WillQuit
    ensures Announced(log + [e])
  {
  }

  lemma AppQuitAnnounces(h: Handlers, s: State, code: int)
    requires Announced(s.emitted)
    ensures Announced(AppQuit(h, s, code).emitted)
  {
    var before := s.emitted + [BeforeQuit];
    AnnouncedSnoc(s.emitted, BeforeQuit);
    AnnouncedSnoc(before, WillQuit);
    AnnouncedSnoc(before + [WillQuit], Quit);
  }

  lemma {:induction false} HandlersAnnounce(h: Handlers, s: State, handlers: seq<bool>)
    requires Announced(s.emitted)
    ensures Announced(RunHandlers(h, s, handlers).emitted)
    decreases |handlers|
  {
    if handlers != [] {
      AppQuitAnnounces(h, s, 0);
      HandlersAnnounce(h, if handlers[0] then QuitApp(h, s) else s, handlers[1..]);
    }
  }

  lemma StepAnnounces(h: Handlers, s: State, c: Call)
    requires Announced(s.emitted) && !c.Exit?
    ensures Announced(Step(h, s, c).emitted)
  {
    match c
    case AllClosed =>
      HandlersAnnounce(h, Emitted(s, WindowAllClosed), h.closed);
      AppQuitAnnounces(h, RunHandlers(h, Emitted(s, WindowAllClosed), h.closed), 0);
    case RequestQuit(code) => AppQuitAnnounces(h, s, code);
    case QuitUnlessQuitting => AppQuitAnnounces(h, s, 0);
    case _ =>
  }

  /** Without Exit, no quit goes unannounced, whatever the handlers prevent. */
  lemma {:induction false} QuitsAreAnnounced(h: Handlers, calls: seq<Call>)
    requires forall c :: c in calls ==> !c.Exit?
    ensures Announced(Run(h, Init(), calls).emitted)
  {
    if calls != [] {
      QuitsAreAnnounced(h, calls[..|calls| - 1]);
      StepAnnounces(h, Run(h, Init(), calls[..|calls| - 1]), calls[|calls| - 1]);
    }
  }

  // ----- asking before quitting -----

  /** Where a handler does not prevent it the next event comes: before-quit, will-quit,
      quit; and window-all-closed asks by itself when no handler is installed. */
  predicate EventOk(h: Handlers, log: seq<Event>, i: nat)
    requires i < |log|
  {
    match log[i]
    case BeforeQuit => !h.prevents(log[..i + 1]) ==> i + 1 < |log| && log[i + 1] == WillQuit
    case WillQuit =>
      && i >= 1 && log[i - 1] == BeforeQuit && !h.prevents(log[..i])
      && (!h.prevents(log[..i + 1]) ==> i + 1 < |log| && log[i + 1] == Quit)
    case WindowAllClosed => h.closed == [] ==> i + 1 < |log| && log[i + 1] == BeforeQuit
    case _ => true
  }

  ghost predicate LogOk(h: Handlers, log: seq<Event>)
  {
    forall i :: 0 <= i < |log| ==> EventOk(h, log, i)
  }

  lemma LogGrows(h: Handlers, log: seq<Event>, more: seq<Event>)
    requires LogOk(h, log)
    requires forall i :: |log| <= i < |log + more| ==> EventOk(h, log + more, i)
    ensures LogOk(h, log + more)
  {
    forall i | 0 <= i < |log| ensures EventOk(h, log + more, i) {
      assert EventOk(h, log, i);
      assert (log + more)[..i] == log[..i] && (log + more)[..i + 1] == log[..i + 1];
    }
  }

  /** What one request to quit adds. */
  function AskEvents(h: Handlers, log: seq<Event>): seq<Event>
  {
    if h.prevents(log + [BeforeQuit]) then [BeforeQuit]
    else if h.prevents(log + [BeforeQuit] + [WillQuit]) then [BeforeQuit, WillQuit]
    else [BeforeQuit, WillQuit, Quit]
  }

  lemma AppQuitAsks(h: Handlers, s: State, code: int)
    ensures AppQuit(h, s, code).emitted == s.emitted + AskEvents(h, s.emitted)
  {
  }

  /** A request behind other new events. */
  lemma AsksOk(h: Handlers, log: seq<Event>, before: seq<Event>)
    requires LogOk(h, log) && (before == [] || (before == [WindowAllClosed] && h.closed == []))
    ensures LogOk(h, log + (before + AskEvents(h, log + before)))
  {
    var more := before + AskEvents(h, log + before);
    var all, n := log + more, |log + before|;
    assert all[..n] == log + before;
    assert all[..n + 1] == log + before + [BeforeQuit];
    if |all| > n + 1 { assert all[..n + 2] == log + before + [BeforeQuit] + [WillQuit]; }
    LogGrows(h, log, more);
  }

  lemma QuitAppOk(h: Handlers, s: State)
    requires LogOk(h, s.emitted)
    ensures LogOk(h, QuitApp(h, s).emitted)
  {
    AppQuitAsks(h, s, 0);
    AsksOk(h, s.emitted, []);
    assert s.emitted + [] == s.emitted && [] + AskEvents(h, s.emitted) == AskEvents(h, s.emitted);
  }

  lemma {:induction false} HandlersOk(h: Handlers, s: State, handlers: seq<bool>)
    requires LogOk(h, s.emitted)
    ensures LogOk(h, RunHandlers(h, s, handlers).emitted)
    decreases |handlers|
  {
    if handlers != [] {
      QuitAppOk(h, s);
      HandlersOk(h, if handlers[0] then QuitApp(h, s) else s, handlers[1..]);
    }
  }

  lemma ClosedOk(h: Handlers, s: State)
    requires LogOk(h, s.emitted)
    ensures LogOk(h, AllWindowsClosed(h, s).emitted)
  {
    var begun := Emitted(s, WindowAllClosed);
    if h.closed == [] {
      AppQuitAsks(h, begun, 0);
      AsksOk(h, s.emitted, [WindowAllClosed]);
      assert s.emitted + ([WindowAllClosed] + AskEvents(h, begun.emitted)) == begun.emitted + AskEvents(h, begun.emitted);
    } else {
      LogGrows(h, s.emitted, [WindowAllClosed]);
      HandlersOk(h, begun, h.closed);
    }
  }

  lemma StepOk(h: Handlers, s: State, c: Call)
    requires LogOk(h, s.emitted)
    ensures LogOk(h, Step(h, s, c).emitted)
  {
    match c
    case MarkReady => LogGrows(h, s.emitted, [WillFinishLaunching, Ready]);
    case WhenReady(_) =>
    case AllClosed => ClosedOk(h, s);
    case RequestQuit(code) =>
      AppQuitAsks(h, s, code);
      AsksOk(h, s.emitted, []);
      assert s.emitted + [] == s.emitted && [] + AskEvents(h, s.emitted) == AskEvents(h, s.emitted);
    case QuitUnlessQuitting => QuitAppOk(h, s);
    case Exit(_) => LogGrows(h, s.emitted, [Quit]);
  }

  /** In every run no quit goes on against a handler, and none stops without one. */
  lemma {:induction false} EveryLogIsOk(h: Handlers, calls: seq<Call>)
    ensures LogOk(h, Run(h, Init(), calls).emitted)
  {
    if calls != [] {
      EveryLogIsOk(h, calls[..|calls| - 1]);
      StepOk(h, Run(h, Init(), calls[..|calls| - 1]), calls[|calls| - 1]);
    }
  }

  /** The event a call begins with: a request always asks, the guarded one unless the app is
      quitting already, and then it does nothing. */
  lemma CallsBegin(h: Handlers, s: State, c: Call)
    ensures
      var t := Step(h, s, c);
      && (c.RequestQuit? || (c.QuitUnlessQuitting? && !s.quitting) ==> s.emitted + [BeforeQuit] <= t.emitted)
      && (c.QuitUnlessQuitting? && s.quitting ==> t == s)
      && (c.AllClosed? ==> s.emitted + [WindowAllClosed] <= t.emitted)
      && (c.Exit? ==> t.emitted == s.emitted + [Quit])
  {
    if c.AllClosed? { HandlersExtend(h, Emitted(s, WindowAllClosed), h.closed); }
  }

  /** The code a call quits with. */
  function CodeOf(c: Call): int
  {
    if c.RequestQuit? || c.Exit? then c.code else 0
  }

  lemma AppQuitCode(h: Handlers, s: State, code: int)
    ensures
      var t := AppQuit(h, s, code);
      && (CountOf(t.emitted, Quit) == CountOf(s.emitted, Quit) || CountOf(t.emitted, Quit) == CountOf(s.emitted, Quit) + 1)
      && t.exitCode == if CountOf(t.emitted, Quit) > CountOf(s.emitted, Quit) then code else s.exitCode
  {
    CountSnoc(s.emitted, BeforeQuit, Quit);
    CountSnoc(s.emitted + [BeforeQuit], WillQuit, Quit);
    CountSnoc(s.emitted + [BeforeQuit] + [WillQuit], Quit, Quit);
  }

  /** Which code is there when quits have been emitted since. */
  predicate CodeSince(s: State, t: State, code: int)
  {
    && CountOf(t.emitted, Quit) >= CountOf(s.emitted, Quit)
    && t.exitCode == if CountOf(t.emitted, Quit) > CountOf(s.emitted, Quit) then code else s.exitCode
  }

  lemma {:induction false} HandlersCode(h: Handlers, s: State, handlers: seq<bool>)
    ensures CodeSince(s, RunHandlers(h, s, handlers), 0)
    decreases |handlers|
  {
    if handlers != [] {
      AppQuitCode(h, s, 0);
      HandlersCode(h, if handlers[0] then QuitApp(h, s) else s, handlers[1..]);
    }
  }

  /** The exit code is the one of the call that last emitted a quit. */
  lemma CodeFollows(h: Handlers, s: State, c: Call)
    ensures CodeSince(s, Step(h, s, c), CodeOf(c))
  {
    match c
    case AllClosed =>
      var begun := Emitted(s, WindowAllClosed);
      CountSnoc(s.emitted, WindowAllClosed, Quit);
      HandlersCode(h, begun, h.closed);
      AppQuitCode(h, RunHandlers(h, begun, h.closed), 0);
    case RequestQuit(code) => AppQuitCode(h, s, code);
    case QuitUnlessQuitting => AppQuitCode(h, s, 0);
    case Exit(_) => CountSnoc(s.emitted, Quit, Quit);
    case MarkReady =>
      CountSnoc(s.emitted, WillFinishLaunching, Quit);
      CountSnoc(s.emitted + [WillFinishLaunching], Ready, Quit);
      assert s.emitted + [WillFinishLaunching] + [Ready] == s.emitted + [WillFinishLaunching, Ready];
    case _ =>
  }

  /** Until a quit is emitted the exit code is zero. */
  lemma {:induction false} CodeIsZeroBefore(h: Handlers, calls: seq<Call>)
    ensures var s := Run(h, Init(), calls); CountOf(s.emitted, Quit) == 0 ==> s.exitCode == 0
  {
    if calls != [] {
      CodeIsZeroBefore(h, calls[..|calls| - 1]);
      CodeFollows(h, Run(h, Init(), calls[..|calls| - 1]), calls[|calls| - 1]);
    }
  }

  /** An installed handler replaces the default: once quitting, another
      window-all-closed emits nothing more; without one it quits again. */
  lemma ClosedWhileQuitting(h: Handlers, s: State)
    requires s.quitting && forall log :: !h.prevents(log)
    ensures CountOf(AllWindowsClosed(h, s).emitted, Quit) == CountOf(s.emitted, Quit) + if h.closed == [] then 1 else 0
  {
    var begun := Emitted(s, WindowAllClosed);
    CountSnoc(s.emitted, WindowAllClosed, Quit);
    HandlersWhileQuitting(h, begun, h.closed);
    CountSnoc(begun.emitted, BeforeQuit, Quit);
    CountSnoc(begun.emitted + [BeforeQuit], WillQuit, Quit);
    CountSnoc(begun.emitted + [BeforeQuit] + [WillQuit], Quit, Quit);
  }

  lemma {:induction false} HandlersWhileQuitting(h: Handlers, s: State, handlers: seq<bool>)
    requires s.quitting
    ensures RunHandlers(h, s, handlers) == s
    decreases |handlers|
  {
    if handlers != [] { HandlersWhileQuitting(h, s, handlers[1..]); }
  }

  // ----- the object -----

  /** applifecycle.App. The handlers are fixed before the run starts. */
  class App {
    const handlers: Handlers
    var ready: bool
    var quitting: bool
    var quitExitCode: int
    var readyWaiters: seq<Waiter>
    var emittedEvents: seq<Event>
    ghost var ran: seq<Ran>   // the waiters called so far

    constructor (handlers: Handlers)
      ensures this.handlers == handlers && View() == Init()
    {
      this.handlers := handlers;
      ready, quitting, quitExitCode, readyWaiters, emittedEvents, ran := false, false, 0, [], [], [];
    }

    ghost function View(): State
      reads this
    {
      State(ready, quitting, quitExitCode, readyWaiters, ran, emittedEvents)
    }

    method MarkReady() returns (ok: bool)
      modifies this
      ensures View() == BecomeReady(old(View())) && ok == !old(ready)
      ensures ok ==> emittedEvents == old(emittedEvents) + [WillFinishLaunching, Ready]
      ensures ok ==> ran == old(ran) + AllRan(old(readyWaiters), |emittedEvents|)
    {
      if ready { return false; }
      ready := true;
      var waiters := readyWaiters;
      readyWaiters := [];
      emittedEvents := emittedEvents + [WillFinishLaunching];
      emittedEvents := emittedEvents + [Ready];
      ghost var all := AllRan(waiters, |emittedEvents|);
      for i := 0 to |waiters|
        invariant ran == old(ran) + all[..i]
        invariant ready && !old(ready) && readyWaiters == [] && waiters == old(readyWaiters)
        invariant emittedEvents == old(emittedEvents) + [WillFinishLaunching, Ready]
        invariant quitting == old(quitting) && quitExitCode == old(quitExitCode)
      {
        assert all[..i + 1] == all[..i] + [Ran(waiters[i], |emittedEvents|)];
        ran := ran + [Ran(waiters[i], |emittedEvents|)];
      }
      ok := true;
    }

    method WhenReady(w: Waiter)
      modifies this
      ensures View() == Await(old(View()), w)
    {
      if ready {
        ran := ran + [Ran(w, |emittedEvents|)];
      } else {
        readyWaiters := readyWaiters + [w];
      }
    }

    method Quit(code: int) returns (done: bool)
      modifies this
      ensures View() == AppQuit(handlers, old(View()), code)
      ensures done <==> emittedEvents == old(emittedEvents) + [BeforeQuit] + [WillQuit] + [Event.Quit]
      ensures done ==> quitting && quitExitCode == code
    {
      emittedEvents := emittedEvents + [BeforeQuit];
      if handlers.prevents(emittedEvents) { return false; }
      emittedEvents := emittedEvents + [WillQuit];
      if handlers.prevents(emittedEvents) { return false; }
      quitting, quitExitCode := true, code;
      emittedEvents := emittedEvents + [Event.Quit];
      done := true;
    }

    method QuitOnce()
      modifies this
      ensures View() == QuitApp(handlers, old(View()))
    {
      if !quitting {
        var _ := Quit(0);
      }
    }

    method EmitAllClosed()
      modifies this
      ensures View() == RunHandlers(handlers, Emitted(old(View()), Event.WindowAllClosed), handlers.closed)
    {
      emittedEvents := emittedEvents + [Event.WindowAllClosed];
      var i := 0;
      while i < |handlers.closed|
        invariant 0 <= i <= |handlers.closed|
        invariant RunHandlers(handlers, View(), handlers.closed[i..])
                  == RunHandlers(handlers, Emitted(old(View()), Event.WindowAllClosed), handlers.closed)
      {
        if handlers.closed[i] { QuitOnce(); }
        i := i + 1;
      }
    }

    method WindowAllClosed() returns (quit: bool)
      modifies this
      ensures View() == AllWindowsClosed(handlers, old(View()))
    {
      EmitAllClosed();
      if |handlers.closed| > 0 { return false; }
      quit := Quit(0);
    }

    method Exit(code: int)
      modifies this
      ensures View() == ExitNow(old(View()), code)
    {
      quitting, quitExitCode := true, code;
      emittedEvents := emittedEvents + [Event.Quit];
    }
  }
}
