/** The browser window's state and event log
    (internal/browserwindow/window.go:45-292). */
module Windows {
  import opened Wrappers

  datatype Rect = Rect(x: int, y: int, width: int, height: int)

  datatype Event =
    | Move | Resize | ShowEvent | HideEvent | MinimizeEvent | RestoreEvent
    | MaximizeEvent | UnmaximizeEvent | EnterFull | LeaveFull | CloseEvent | ClosedEvent

  /** What the log is about. */
  datatype Flags = Flags(visible: bool, minimized: bool, maximized: bool, fullscreen: bool, closed: bool)

  datatype State = State(bounds: Rect, normal: Rect, flags: Flags, events: seq<Event>)

  datatype Call =
    | SetBounds(bounds: Rect)
    | Show
    | Hide
    | Minimize
    | Restore
    | Maximize
    | Unmaximize
    | SetFullScreen(on: bool)
    | Close(prevented: bool)

  function Init(bounds: Rect, show: bool): State
  {
    State(bounds, bounds, Flags(show, false, false, false, false), [])
  }

  predicate ValidRect(r: Rect)
  {
    r.width > 0 && r.height > 0
  }

  function Emit(s: State, e: Event): State
  {
    s.(events := s.events + [e])
  }

  function Bounded(s: State, r: Rect): State
  {
    var moved := r.x != s.bounds.x || r.y != s.bounds.y;
    var resized := r.width != s.bounds.width || r.height != s.bounds.height;
    var normal := if !s.flags.maximized && !s.flags.fullscreen then r else s.normal;
    s.(bounds := r, normal := normal,
       events := s.events + (if moved then [Move] else []) + (if resized then [Resize] else []))
  }

  function Flagged(s: State, f: Flags, e: Event): State
  {
    if f == s.flags then s else Emit(s.(flags := f), e)
  }

  function Unmaximized(s: State): State
  {
    if !s.flags.maximized then s else Flagged(s.(bounds := s.normal), s.flags.(maximized := false), UnmaximizeEvent)
  }

  function FullScreened(s: State, on: bool): State
  {
    if s.flags.fullscreen == on then s
    else if on then Flagged(s, s.flags.(fullscreen := true), EnterFull)
    else Flagged(s.(bounds := s.normal), s.flags.(fullscreen := false), LeaveFull)
  }

  function Closed(s: State, prevented: bool): State
  {
    if s.flags.closed then s
    else if prevented then Emit(s, CloseEvent)
    else s.(flags := s.flags.(closed := true, visible := false), events := s.events + [CloseEvent, ClosedEvent])
  }

  function Step(s: State, c: Call): State
  {
    if c.Close? then Closed(s, c.prevented)
    else if s.flags.closed then s
    else
      match c
      case SetBounds(r) => if ValidRect(r) then Bounded(s, r) else s
      case Show => Flagged(s, s.flags.(visible := true), ShowEvent)
      case Hide => Flagged(s, s.flags.(visible := false), HideEvent)
      case Minimize => Flagged(s, s.flags.(minimized := true), MinimizeEvent)
      case Restore => Flagged(s, s.flags.(minimized := false), RestoreEvent)
      case Maximize => Flagged(s, s.flags.(maximized := true), MaximizeEvent)
      case Unmaximize => Unmaximized(s)
      case SetFullScreen(on) => FullScreened(s, on)
      case Close(_) => s
  }

  function Run(s: State, calls: seq<Call>): State
  {
    if calls == [] then s else Step(Run(s, calls[..|calls| - 1]), calls[|calls| - 1])
  }

  // ----- the log determines the flags -----

  function Apply(f: Flags, e: Event): Flags
  {
    match e
    case ShowEvent => f.(visible := true)
    case HideEvent => f.(visible := false)
    case MinimizeEvent => f.(minimized := true)
    case RestoreEvent => f.(minimized := false)
    case MaximizeEvent => f.(maximized := true)
    case UnmaximizeEvent => f.(maximized := false)
    case EnterFull => f.(fullscreen := true)
    case LeaveFull => f.(fullscreen := false)
    case ClosedEvent => f.(closed := true, visible := false)
    case _ => f
  }

  function Replay(f: Flags, log: seq<Event>): Flags
  {
    if log == [] then f else Apply(Replay(f, log[..|log| - 1]), log[|log| - 1])
  }

  /** No event is emitted after closed, and none that would change nothing. */
  predicate Telling(f: Flags, log: seq<Event>)
  {
    log == [] ||
    (var before, last := Replay(f, log[..|log| - 1]), log[|log| - 1];
     && Telling(f, log[..|log| - 1])
     && !before.closed
     && (Apply(before, last) != before || last == Move || last == Resize || last == CloseEvent))
  }

  lemma ReplaySnoc(f: Flags, log: seq<Event>, e: Event)
    ensures Replay(f, log + [e]) == Apply(Replay(f, log), e)
    ensures Telling(f, log + [e]) <==>
      (&& Telling(f, log) && !Replay(f, log).closed
       && (Apply(Replay(f, log), e) != Replay(f, log) || e == Move || e == Resize || e == CloseEvent))
  {
  }

  /** The window's own invariant: the log replays to the flags, the normal bounds are
      the bounds unless maximized or full screen, bounds stay valid, and a closed
      window is not visible. */
  predicate Inv(start: Flags, s: State)
  {
    && Replay(start, s.events) == s.flags
    && Telling(start, s.events)
    && (!s.flags.maximized && !s.flags.fullscreen ==> s.bounds == s.normal)
    && ValidRect(s.bounds) && ValidRect(s.normal)
    && (s.flags.closed ==> !s.flags.visible)
  }

  lemma BoundedKeepsInv(start: Flags, s: State, r: Rect)
    requires Inv(start, s) && !s.flags.closed && ValidRect(r)
    ensures Inv(start, Bounded(s, r))
  {
    ReplaySnoc(start, s.events, Move);
    ReplaySnoc(start, s.events, Resize);
    ReplaySnoc(start, s.events + [Move], Resize);
    assert s.events + [] == s.events && s.events + [Move] + [] == s.events + [Move];
  }

  lemma FlaggedKeepsInv(start: Flags, s: State, f: Flags, e: Event)
    requires Replay(start, s.events) == s.flags && Telling(start, s.events) && !s.flags.closed
    requires f == Apply(s.flags, e)
    ensures Replay(start, Flagged(s, f, e).events) == f && Telling(start, Flagged(s, f, e).events)
  {
  }

  lemma ClosedKeepsInv(start: Flags, s: State, prevented: bool)
    requires Inv(start, s)
    ensures Inv(start, Closed(s, prevented))
  {
    ReplaySnoc(start, s.events, CloseEvent);
    ReplaySnoc(start, s.events + [CloseEvent], ClosedEvent);
    assert s.events + [CloseEvent] + [ClosedEvent] == s.events + [CloseEvent, ClosedEvent];
  }

  lemma ToggleKeepsInv(start: Flags, s: State, c: Call)
    requires Inv(start, s) && !s.flags.closed && (c.Show? || c.Hide? || c.Minimize? || c.Restore? || c.Maximize?)
    ensures Inv(start, Step(s, c))
  {
    match c
    case Show => FlaggedKeepsInv(start, s, s.flags.(visible := true), ShowEvent);
    case Hide => FlaggedKeepsInv(start, s, s.flags.(visible := false), HideEvent);
    case Minimize => FlaggedKeepsInv(start, s, s.flags.(minimized := true), MinimizeEvent);
    case Restore => FlaggedKeepsInv(start, s, s.flags.(minimized := false), RestoreEvent);
    case Maximize => FlaggedKeepsInv(start, s, s.flags.(maximized := true), MaximizeEvent);
  }

  lemma LeavingKeepsInv(start: Flags, s: State, c: Call)
    requires Inv(start, s) && !s.flags.closed && (c.Unmaximize? || c.SetFullScreen?)
    ensures Inv(start, Step(s, c))
  {
    match c
    case Unmaximize => FlaggedKeepsInv(start, s.(bounds := s.normal), s.flags.(maximized := false), UnmaximizeEvent);
    case SetFullScreen(_) =>
      FlaggedKeepsInv(start, s, s.flags.(fullscreen := true), EnterFull);
      FlaggedKeepsInv(start, s.(bounds := s.normal), s.flags.(fullscreen := false), LeaveFull);
  }

  lemma StepKeepsInv(start: Flags, s: State, c: Call)
    requires Inv(start, s)
    ensures Inv(start, Step(s, c))
  {
    if c.Close? {
      ClosedKeepsInv(start, s, c.prevented);
    } else if !s.flags.closed {
      match c
      case SetBounds(r) => if ValidRect(r) { BoundedKeepsInv(start, s, r); }
      case Unmaximize => LeavingKeepsInv(start, s, c);
      case SetFullScreen(_) => LeavingKeepsInv(start, s, c);
      case _ => ToggleKeepsInv(start, s, c);
    }
  }

  /** In every run the log alone determines visible, minimized, maximized, full screen
      and closed; leaving both maximized and full screen restores the bounds last set
      outside them. */
  lemma {:induction false} EveryRunKeepsInv(bounds: Rect, show: bool, calls: seq<Call>)
    requires ValidRect(bounds)
    ensures Inv(Flags(show, false, false, false, false), Run(Init(bounds, show), calls))
  {
    if calls != [] {
      EveryRunKeepsInv(bounds, show, calls[..|calls| - 1]);
      StepKeepsInv(Flags(show, false, false, false, false), Run(Init(bounds, show), calls[..|calls| - 1]), calls[|calls| - 1]);
    }
  }

  /** Once closed, nothing changes any more. */
  lemma {:induction false} ClosedForGood(s: State, calls: seq<Call>)
    requires s.flags.closed
    ensures Run(s, calls) == s
  {
    if calls != [] { ClosedForGood(s, calls[..|calls| - 1]); }
  }

  /** Neither a change of mode nor a close. */
  predicate KeepsMode(c: Call)
  {
    !c.Maximize? && !c.Unmaximize? && !c.SetFullScreen? && !c.Close?
  }

  lemma {:induction false} NormalSurvives(s: State, calls: seq<Call>)
    requires !s.flags.closed && (s.flags.maximized || s.flags.fullscreen)
    requires forall c :: c in calls ==> KeepsMode(c)
    ensures
      var t := Run(s, calls);
      && t.normal == s.normal && !t.flags.closed
      && t.flags.maximized == s.flags.maximized && t.flags.fullscreen == s.flags.fullscreen
  {
    if calls != [] {
      NormalSurvives(s, calls[..|calls| - 1]);
      assert KeepsMode(calls[|calls| - 1]);
    }
  }

  /** Whatever bounds are set in between, leaving maximized or full screen restores the
      bounds the window had before. */
  lemma ModeRoundTrip(start: Flags, s: State, calls: seq<Call>, full: bool)
    requires Inv(start, s) && !s.flags.closed && !s.flags.maximized && !s.flags.fullscreen
    requires forall c :: c in calls ==> KeepsMode(c)
    ensures
      var enter, leave := if full then SetFullScreen(true) else Maximize, if full then SetFullScreen(false) else Unmaximize;
      Step(Run(Step(s, enter), calls), leave).bounds == s.bounds
  {
    NormalSurvives(Step(s, if full then SetFullScreen(true) else Maximize), calls);
  }

  // ----- the window told from its calls -----

  /** What can be switched on and off. */
  datatype Switch = Visible | Minimized | Maximized | Full

  /** The switch a call is about, and what it asks of it. */
  function Asked(c: Call): Option<(Switch, bool)>
  {
    match c
    case Show => Some((Visible, true))
    case Hide => Some((Visible, false))
    case Minimize => Some((Minimized, true))
    case Restore => Some((Minimized, false))
    case Maximize => Some((Maximized, true))
    case Unmaximize => Some((Maximized, false))
    case SetFullScreen(on) => Some((Full, on))
    case _ => None
  }

  /** What was asked last of a switch; at the start only visible may be on. */
  function LastAsked(calls: seq<Call>, w: Switch, show: bool): bool
  {
    if calls == [] then w == Visible && show
    else
      var asked := Asked(calls[|calls| - 1]);
      if asked.Some? && asked.value.0 == w then asked.value.1 else LastAsked(calls[..|calls| - 1], w, show)
  }

  /** Whether the window is maximized or full screen. */
  predicate Special(calls: seq<Call>)
  {
    LastAsked(calls, Maximized, false) || LastAsked(calls, Full, false)
  }

  /** The last call leaves maximized or full screen. */
  predicate Leaves(calls: seq<Call>, c: Call)
  {
    || (c == Unmaximize && LastAsked(calls, Maximized, false))
    || (c == SetFullScreen(false) && LastAsked(calls, Full, false))
  }

  /** The bounds last set outside maximized and full screen. */
  function LastNormal(calls: seq<Call>, start: Rect): Rect
  {
    if calls == [] then start
    else
      var front, last := calls[..|calls| - 1], calls[|calls| - 1];
      if last.SetBounds? && last.bounds.width >= 1 && last.bounds.height >= 1 && !Special(front) then last.bounds
      else LastNormal(front, start)
  }

  /** The bounds last set, or gone back to. */
  function LastBounds(calls: seq<Call>, start: Rect): Rect
  {
    if calls == [] then start
    else
      var front, last := calls[..|calls| - 1], calls[|calls| - 1];
      if last.SetBounds? && last.bounds.width >= 1 && last.bounds.height >= 1 then last.bounds
      else if Leaves(front, last) then LastNormal(front, start)
      else LastBounds(front, start)
  }

  /** The event of a switch. */
  function EventOf(w: Switch, on: bool): Event
  {
    match w
    case Visible => if on then ShowEvent else HideEvent
    case Minimized => if on then MinimizeEvent else RestoreEvent
    case Maximized => if on then MaximizeEvent else UnmaximizeEvent
    case Full => if on then EnterFull else LeaveFull
  }

  /** What a call adds to the log of an open window, from the calls before it. */
  function EventsOf(calls: seq<Call>, c: Call, bounds: Rect, show: bool): seq<Event>
  {
    match c
    case SetBounds(r) => if r.width < 1 || r.height < 1 then [] else Changes(LastBounds(calls, bounds), r)
    case Close(prevented) => if prevented then [CloseEvent] else [CloseEvent, ClosedEvent]
    case _ =>
      var (w, on) := Asked(c).value;
      if LastAsked(calls, w, show) == on then [] else [EventOf(w, on)]
  }

  function Changes(now: Rect, r: Rect): seq<Event>
  {
    (if (r.x, r.y) == (now.x, now.y) then [] else [Move]) + (if (r.width, r.height) == (now.width, now.height) then [] else [Resize])
  }

  function LogOf(calls: seq<Call>, bounds: Rect, show: bool): seq<Event>
  {
    if calls == [] then [] else LogOf(calls[..|calls| - 1], bounds, show) + EventsOf(calls[..|calls| - 1], calls[|calls| - 1], bounds, show)
  }

  /** The calls that find the window open, the one that closes it included. */
  function OpenCalls(calls: seq<Call>): seq<Call>
  {
    if calls == [] then []
    else
      var front := OpenCalls(calls[..|calls| - 1]);
      if Close(false) in front then front else front + [calls[|calls| - 1]]
  }

  function FlagsOf(calls: seq<Call>, show: bool): Flags
  {
    var closed := Close(false) in calls;
    Flags(!closed && LastAsked(calls, Visible, show), LastAsked(calls, Minimized, show), LastAsked(calls, Maximized, show),
          LastAsked(calls, Full, show), closed)
  }

  /** The window these calls leave, the last of which may have closed it. */
  function Told(calls: seq<Call>, bounds: Rect, show: bool): State
  {
    State(LastBounds(calls, bounds), LastNormal(calls, bounds), FlagsOf(calls, show), LogOf(calls, bounds, show))
  }

  function Get(f: Flags, w: Switch): bool
  {
    match w
    case Visible => f.visible
    case Minimized => f.minimized
    case Maximized => f.maximized
    case Full => f.fullscreen
  }

  function With(f: Flags, w: Switch, on: bool): Flags
  {
    match w
    case Visible => f.(visible := on)
    case Minimized => f.(minimized := on)
    case Maximized => f.(maximized := on)
    case Full => f.(fullscreen := on)
  }

  lemma StepSwitches(s: State, c: Call, w: Switch, on: bool)
    requires !s.flags.closed && Asked(c) == Some((w, on))
    ensures Step(s, c) ==
      if Get(s.flags, w) == on then s
      else State(if !on && (w == Maximized || w == Full) then s.normal else s.bounds, s.normal, With(s.flags, w, on), s.events + [EventOf(w, on)])
  {
  }

  lemma {:induction false} ShowMatters(calls: seq<Call>, w: Switch, a: bool, b: bool)
    requires w != Visible
    ensures LastAsked(calls, w, a) == LastAsked(calls, w, b)
  {
    if calls != [] { ShowMatters(calls[..|calls| - 1], w, a, b); }
  }

  lemma AskedOneMore(calls: seq<Call>, c: Call, w: Switch, show: bool)
    ensures
      LastAsked(calls + [c], w, show)
      == if Asked(c).Some? && Asked(c).value.0 == w then Asked(c).value.1 else LastAsked(calls, w, show)
  {
    assert (calls + [c])[..|calls|] == calls;
  }

  lemma FlagsOneMore(calls: seq<Call>, c: Call, show: bool)
    requires Close(false) !in calls && c != Close(false)
    ensures
      FlagsOf(calls + [c], show)
      == if Asked(c).Some? then With(FlagsOf(calls, show), Asked(c).value.0, Asked(c).value.1) else FlagsOf(calls, show)
  {
    AskedOneMore(calls, c, Visible, show);
    AskedOneMore(calls, c, Minimized, show);
    AskedOneMore(calls, c, Maximized, show);
    AskedOneMore(calls, c, Full, show);
    assert Close(false) !in calls + [c];
  }

  lemma BoundsOneMore(calls: seq<Call>, c: Call, bounds: Rect, show: bool)
    ensures
      var sets := c.SetBounds? && c.bounds.width >= 1 && c.bounds.height >= 1;
      && LastNormal(calls + [c], bounds) == (if sets && !Special(calls) then c.bounds else LastNormal(calls, bounds))
      && LastBounds(calls + [c], bounds)
         == (if sets then c.bounds else if Leaves(calls, c) then LastNormal(calls, bounds) else LastBounds(calls, bounds))
    ensures LogOf(calls + [c], bounds, show) == LogOf(calls, bounds, show) + EventsOf(calls, c, bounds, show)
  {
    assert (calls + [c])[..|calls|] == calls;
  }

  lemma TellsSwitch(calls: seq<Call>, c: Call, bounds: Rect, show: bool)
    requires Close(false) !in calls && Asked(c).Some?
    ensures Told(calls + [c], bounds, show) == Step(Told(calls, bounds, show), c)
  {
    var (w, on) := Asked(c).value;
    StepSwitches(Told(calls, bounds, show), c, w, on);
    FlagsOneMore(calls, c, show);
    BoundsOneMore(calls, c, bounds, show);
    ShowMatters(calls, Maximized, show, false);
    ShowMatters(calls, Full, show, false);
  }

  lemma TellsBounds(calls: seq<Call>, c: Call, bounds: Rect, show: bool)
    requires Close(false) !in calls && c.SetBounds?
    ensures Told(calls + [c], bounds, show) == Step(Told(calls, bounds, show), c)
  {
    FlagsOneMore(calls, c, show);
    BoundsOneMore(calls, c, bounds, show);
    ShowMatters(calls, Maximized, show, false);
    ShowMatters(calls, Full, show, false);
    if ValidRect(c.bounds) { BoundedChanges(Told(calls, bounds, show), c.bounds); }
  }

  lemma BoundedChanges(s: State, r: Rect)
    ensures
      Bounded(s, r)
      == State(r, if s.flags.maximized || s.flags.fullscreen then s.normal else r, s.flags, s.events + Changes(s.bounds, r))
  {
    var moved := if r.x != s.bounds.x || r.y != s.bounds.y then [Move] else [];
    var resized := if r.width != s.bounds.width || r.height != s.bounds.height then [Resize] else [];
    assert s.events + moved + resized == s.events + (moved + resized);
  }

  lemma TellsClose(calls: seq<Call>, c: Call, bounds: Rect, show: bool)
    requires Close(false) !in calls && c.Close?
    ensures Told(calls + [c], bounds, show) == Step(Told(calls, bounds, show), c)
  {
    BoundsOneMore(calls, c, bounds, show);
    AskedOneMore(calls, c, Minimized, show);
    AskedOneMore(calls, c, Maximized, show);
    AskedOneMore(calls, c, Full, show);
    AskedOneMore(calls, c, Visible, show);
    assert Close(false) in calls + [c] <==> !c.prevented;
  }

  /** One more call on an open window. */
  lemma TellsOneMore(calls: seq<Call>, c: Call, bounds: Rect, show: bool)
    requires Close(false) !in calls
    ensures Told(calls + [c], bounds, show) == Step(Told(calls, bounds, show), c)
  {
    if c.SetBounds? {
      TellsBounds(calls, c, bounds, show);
    } else if c.Close? {
      TellsClose(calls, c, bounds, show);
    } else {
      TellsSwitch(calls, c, bounds, show);
    }
  }

  /** In every run the window is what its calls tell: each switch as last asked, the bounds
      as last set or gone back to, and an event for every change, until it is closed. */
  lemma {:induction false} EveryRunIsTold(bounds: Rect, show: bool, calls: seq<Call>)
    ensures Run(Init(bounds, show), calls) == Told(OpenCalls(calls), bounds, show)
    ensures Close(false) in OpenCalls(calls) <==> Close(false) in calls
  {
    if calls != [] {
      var front, last := calls[..|calls| - 1], calls[|calls| - 1];
      EveryRunIsTold(bounds, show, front);
      assert calls == front + [last];
      if Close(false) !in OpenCalls(front) { TellsOneMore(OpenCalls(front), last, bounds, show); }
    }
  }

  // ----- the object -----

  class Window {
    const id: int
    var bounds: Rect
    var normal: Rect
    var visible: bool
    var minimized: bool
    var maximized: bool
    var fullscreen: bool
    var closed: bool
    var events: seq<Event>

    constructor (id: int, bounds: Rect, show: bool)
      ensures this.id == id && View() == Init(bounds, show)
    {
      this.id, this.bounds, normal, visible := id, bounds, bounds, show;
      minimized, maximized, fullscreen, closed, events := false, false, false, false, [];
    }

    ghost function View(): State
      reads this
    {
      State(bounds, normal, Flags(visible, minimized, maximized, fullscreen, closed), events)
    }

    method SetBounds(r: Rect) returns (ok: bool)
      modifies this
      ensures View() == Step(old(View()), Call.SetBounds(r))
      ensures ok <==> ValidRect(r) && !old(closed)
    {
      if r.width <= 0 || r.height <= 0 || closed { return false; }
      var moved := r.x != bounds.x || r.y != bounds.y;
      var resized := r.width != bounds.width || r.height != bounds.height;
      bounds := r;
      if !maximized && !fullscreen { normal := r; }
      if moved { events := events + [Move]; }
      if resized { events := events + [Resize]; }
      ok := true;
    }

    method SetVisible(on: bool) returns (ok: bool)
      modifies this
      ensures View() == Step(old(View()), if on then Show else Hide)
      ensures ok == !old(closed)
    {
      if closed { return false; }
      if visible != on {
        visible := on;
        events := events + [if on then ShowEvent else HideEvent];
      }
      ok := true;
    }

    method SetMinimized(on: bool) returns (ok: bool)
      modifies this
      ensures View() == Step(old(View()), if on then Minimize else Restore)
      ensures ok == !old(closed)
    {
      if closed { return false; }
      if minimized != on {
        minimized := on;
        events := events + [if on then MinimizeEvent else RestoreEvent];
      }
      ok := true;
    }

    method Maximize() returns (ok: bool)
      modifies this
      ensures View() == Step(old(View()), Call.Maximize)
      ensures ok == !old(closed)
    {
      if closed { return false; }
      if !maximized {
        maximized := true;
        events := events + [MaximizeEvent];
      }
      ok := true;
    }

    method Unmaximize() returns (ok: bool)
      modifies this
      ensures View() == Step(old(View()), Call.Unmaximize)
      ensures ok == !old(closed)
    {
      if closed { return false; }
      if maximized {
        maximized, bounds := false, normal;
        events := events + [UnmaximizeEvent];
      }
      ok := true;
    }

    method SetFullScreen(on: bool) returns (ok: bool)
      modifies this
      ensures View() == Step(old(View()), Call.SetFullScreen(on))
      ensures ok == !old(closed)
    {
      if closed { return false; }
      if fullscreen == on { return true; }
      fullscreen := on;
      if on {
        events := events + [EnterFull];
      } else {
        bounds := normal;
        events := events + [LeaveFull];
      }
      ok := true;
    }

    /** `prevented` is what the close handlers decide. */
    method Close(prevented: bool) returns (done: bool)
      modifies this
      ensures View() == Closed(old(View()), prevented)
      ensures done <==> !old(closed) && closed
    {
      if closed { return false; }
      events := events + [CloseEvent];
      if prevented { return false; }
      closed, visible := true, false;
      events := events + [ClosedEvent];
      done := true;
    }
  }
}
