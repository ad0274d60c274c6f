/** Navigation of a webContents (internal/webcontents/webcontents.go:45-71, 94-199): the
    slice-and-index history against a browser history of two stacks. */
module History {
  import opened Wrappers

  datatype Event =
    | DidStartNavigation | WillFrameNavigate | WillNavigate | DidFrameNavigate | DidNavigate
    | DidNavigateInPage | DidStartLoading | DidStopLoading | DidFinishLoad | DidFailLoad

  datatype Error = InvalidURL | NavigationCancelled | HistoryUnavailable

  // ----- the two stacks -----

  /** The pages behind, the page shown (none at first), the pages ahead, nearest first. */
  datatype Pages = Blank | Showing(back: seq<string>, current: string, ahead: seq<string>)

  function Visit(p: Pages, url: string): Pages
  {
    if p.Blank? then Showing([], url, []) else Showing(p.back + [p.current], url, [])
  }

  function Back(p: Pages): Pages
  {
    if p.Blank? || p.back == [] then p
    else Showing(p.back[..|p.back| - 1], p.back[|p.back| - 1], [p.current] + p.ahead)
  }

  function Forward(p: Pages): Pages
  {
    if p.Blank? || p.ahead == [] then p else Showing(p.back + [p.current], p.ahead[0], p.ahead[1..])
  }

  lemma BackThenForward(p: Pages)
    requires p.Showing? && p.back != []
    ensures Forward(Back(p)) == p
  {
  }

  lemma ForwardThenBack(p: Pages)
    requires p.Showing? && p.ahead != []
    ensures Back(Forward(p)) == p
  {
  }

  function Times(n: nat, move: Pages -> Pages, p: Pages): Pages
  {
    if n == 0 then p else Times(n - 1, move, move(p))
  }

  /** Any number of steps back within the history, and as many forward, is no move. */
  lemma {:induction false} BackAndForwardAgain(p: Pages, n: nat)
    requires p.Showing? && n <= |p.back|
    ensures Times(n, Forward, Times(n, Back, p)) == p
    decreases n
  {
    if n > 0 {
      BackThenForward(p);
      BackAndForwardAgain(Back(p), n - 1);
      TimesSnoc(n - 1, Forward, Times(n - 1, Back, Back(p)));
    }
  }

  /** The mirror: forward as long as there are pages ahead, then back as often. */
  lemma {:induction false} ForwardAndBackAgain(p: Pages, n: nat)
    requires p.Showing? && n <= |p.ahead|
    ensures Times(n, Back, Times(n, Forward, p)) == p
    decreases n
  {
    if n > 0 {
      ForwardThenBack(p);
      ForwardAndBackAgain(Forward(p), n - 1);
      TimesSnoc(n - 1, Back, Times(n - 1, Forward, Forward(p)));
    }
  }

  lemma {:induction false} TimesSnoc(n: nat, move: Pages -> Pages, p: Pages)
    ensures Times(n + 1, move, p) == move(Times(n, move, p))
  {
    if n > 0 { TimesSnoc(n - 1, move, move(p)); }
  }

  /** Returning to a page and visiting from there forgets what was ahead. */
  lemma VisitForgetsAhead(p: Pages, url: string)
    ensures Forward(Visit(p, url)) == Visit(p, url)
    ensures p.Showing? ==> Back(Visit(p, url)) == Showing(p.back, p.current, [url])
  {
  }

  // ----- whole runs -----

  datatype Call =
    | LoadURL(url: string)
    | NavigateInPage(url: string)
    | FailLoad(url: string)
    | GoBack
    | GoForward

  /** Which URLs parse, and how the handlers answer the event that ends a log. */
  datatype World = World(valid: string -> bool, prevents: seq<Event> -> bool)

  datatype State = State(history: seq<string>, index: int, current: string, loading: bool, events: seq<Event>)

  function Init(): State
  {
    State([], -1, "", false, [])
  }

  function Emit(s: State, events: seq<Event>): State
  {
    s.(events := s.events + events)
  }

  function Commit(s: State, url: string): State
    requires -1 <= s.index < |s.history|
  {
    s.(history := s.history[..s.index + 1] + [url], index := s.index + 1, current := url)
  }

  /** Whether a handler cancels this load, and the log when it does. */
  function Cancelled(w: World, events: seq<Event>): (r: (bool, seq<Event>))
  {
    var asked := events + [DidStartNavigation] + [WillFrameNavigate];
    if w.prevents(asked) then (true, asked)
    else (w.prevents(asked + [WillNavigate]), asked + [WillNavigate])
  }

  predicate InRange(s: State)
  {
    && -1 <= s.index < |s.history|
    && (s.index == -1 <==> s.history == [])
    && s.current == (if s.index == -1 then "" else s.history[s.index])
    && !s.loading
  }

  /** A committed navigation, with the log around it. */
  function Navigated(s: State, url: string, log: seq<Event>): State
    requires InRange(s)
  {
    Commit(s, url).(events := log)
  }

  const LOADED := [DidStartLoading, DidFrameNavigate, DidNavigate, DidStopLoading, DidFinishLoad]

  function InPage(s: State, url: string): State
    requires InRange(s)
  {
    Navigated(s, url, s.events + [DidStartNavigation, DidNavigateInPage])
  }

  function Load(w: World, s: State, url: string): State
    requires InRange(s)
  {
    var asked := Cancelled(w, s.events);
    if asked.0 then s.(events := asked.1) else Navigated(s, url, asked.1 + LOADED)
  }

  function StepBack(s: State): State
    requires InRange(s)
  {
    if s.index <= 0 then s else Emit(s.(index := s.index - 1, current := s.history[s.index - 1]), [DidNavigate])
  }

  function StepForward(s: State): State
    requires InRange(s)
  {
    if s.index < 0 || s.index >= |s.history| - 1 then s
    else Emit(s.(index := s.index + 1, current := s.history[s.index + 1]), [DidNavigate])
  }

  function Step(w: World, s: State, c: Call): State
    requires InRange(s)
  {
    match c
    case LoadURL(url) => if w.valid(url) then Load(w, s, url) else s
    case NavigateInPage(url) =>
      if w.valid(url) then InPage(s, url) else s
    case FailLoad(url) =>
      if !w.valid(url) then s else Emit(s, [DidStartLoading, DidStopLoading, DidFailLoad])
    case GoBack => StepBack(s)
    case GoForward => StepForward(s)
  }

  /** The two stacks a slice and an index stand for. */
  function PagesOf(s: State): Pages
    requires InRange(s)
  {
    if s.index == -1 then Blank else Showing(s.history[..s.index], s.current, s.history[s.index + 1..])
  }

  /** The same call on the two stacks, with the event log it leaves. */
  function Browsed(w: World, p: Pages, log: seq<Event>, c: Call): (Pages, seq<Event>)
  {
    match c
    case LoadURL(url) =>
      if !w.valid(url) then (p, log)
      else
        var asked := Cancelled(w, log);
        if asked.0 then (p, asked.1) else (Visit(p, url), asked.1 + LOADED)
    case NavigateInPage(url) =>
      if w.valid(url) then (Visit(p, url), log + [DidStartNavigation, DidNavigateInPage]) else (p, log)
    case FailLoad(url) =>
      if w.valid(url) then (p, log + [DidStartLoading, DidStopLoading, DidFailLoad]) else (p, log)
    case GoBack => if p.Blank? || p.back == [] then (p, log) else (Back(p), log + [DidNavigate])
    case GoForward => if p.Blank? || p.ahead == [] then (p, log) else (Forward(p), log + [DidNavigate])
  }

  /** `t` stands for these pages with this log. */
  predicate Refines(t: State, after: (Pages, seq<Event>))
  {
    InRange(t) && PagesOf(t) == after.0 && t.events == after.1
  }

  lemma NavigatedRefines(s: State, url: string, log: seq<Event>)
    requires InRange(s)
    ensures Refines(Navigated(s, url, log), (Visit(PagesOf(s), url), log))
  {
    var t := Navigated(s, url, log);
    assert t.history[..t.index] == s.history[..s.index + 1];
    if s.index >= 0 { assert s.history[..s.index + 1] == s.history[..s.index] + [s.current]; }
  }

  lemma BackRefines(w: World, s: State)
    requires InRange(s)
    ensures Refines(StepBack(s), Browsed(w, PagesOf(s), s.events, GoBack))
  {
    if s.index > 0 {
      assert s.history[s.index..] == [s.current] + s.history[s.index + 1..];
      assert s.history[..s.index][..s.index - 1] == s.history[..s.index - 1];
    }
  }

  lemma ForwardRefines(w: World, s: State)
    requires InRange(s)
    ensures Refines(StepForward(s), Browsed(w, PagesOf(s), s.events, GoForward))
  {
    if 0 <= s.index < |s.history| - 1 {
      assert s.history[..s.index + 1] == s.history[..s.index] + [s.current];
      assert s.history[s.index + 1..][1..] == s.history[s.index + 2..];
    }
  }

  /** Only the log changes. */
  lemma LogRefines(s: State, log: seq<Event>)
    requires InRange(s)
    ensures Refines(s.(events := log), (PagesOf(s), log))
  {
    var t := s.(events := log);
    assert t.history == s.history && t.index == s.index && t.current == s.current;
  }

  lemma LoadRefines(w: World, s: State, url: string)
    requires InRange(s)
    ensures Refines(Step(w, s, LoadURL(url)), Browsed(w, PagesOf(s), s.events, LoadURL(url)))
  {
    LogRefines(s, s.events);
    LogRefines(s, Cancelled(w, s.events).1);
    NavigatedRefines(s, url, Cancelled(w, s.events).1 + LOADED);
  }

  lemma InPageRefines(w: World, s: State, url: string)
    requires InRange(s)
    ensures Refines(Step(w, s, NavigateInPage(url)), Browsed(w, PagesOf(s), s.events, NavigateInPage(url)))
  {
    LogRefines(s, s.events);
    NavigatedRefines(s, url, s.events + [DidStartNavigation, DidNavigateInPage]);
  }

  lemma FailRefines(w: World, s: State, url: string)
    requires InRange(s)
    ensures Refines(Step(w, s, FailLoad(url)), Browsed(w, PagesOf(s), s.events, FailLoad(url)))
  {
  }

  lemma StepRefines(w: World, s: State, c: Call)
    requires InRange(s)
    ensures Refines(Step(w, s, c), Browsed(w, PagesOf(s), s.events, c))
  {
    match c
    case LoadURL(url) => LoadRefines(w, s, url);
    case NavigateInPage(url) => InPageRefines(w, s, url);
    case FailLoad(url) => FailRefines(w, s, url);
    case GoBack => BackRefines(w, s);
    case GoForward => ForwardRefines(w, s);
  }

  ghost predicate Reaches(w: World, s: State, calls: seq<Call>, t: State)
    requires InRange(s)
    decreases |calls|
  {
    if calls == [] then s == t
    else
      StepRefines(w, s, calls[0]);
      Reaches(w, Step(w, s, calls[0]), calls[1..], t)
  }

  /** A run on the two stacks only. */
  function Browse(w: World, p: Pages, log: seq<Event>, calls: seq<Call>): (Pages, seq<Event>)
    decreases |calls|
  {
    if calls == [] then (p, log)
    else
      var after := Browsed(w, p, log, calls[0]);
      Browse(w, after.0, after.1, calls[1..])
  }

  /** In every run the slice and the index are a two-stack browser history. */
  lemma {:induction false} RunRefines(w: World, s: State, calls: seq<Call>, t: State)
    requires InRange(s) && Reaches(w, s, calls, t)
    ensures Refines(t, Browse(w, PagesOf(s), s.events, calls))
    decreases |calls|
  {
    if calls != [] {
      StepRefines(w, s, calls[0]);
      RunRefines(w, Step(w, s, calls[0]), calls[1..], t);
    }
  }

  /** From a new webContents: it shows nothing and has told nothing, and every run is the
      run of an empty browser. */
  lemma RunsFromBlank(w: World, calls: seq<Call>, t: State)
    requires InRange(Init()) && Reaches(w, Init(), calls, t)
    ensures InRange(t) && (PagesOf(t), t.events) == Browse(w, Blank, [], calls) && !t.loading
    ensures |t.history| == 0 ==> t.index == -1 && |t.current| == 0
    ensures |t.history| > 0 ==> 0 <= t.index < |t.history| && t.current == t.history[t.index]
  {
    RunRefines(w, Init(), calls, t);
  }

  /** A cancelled, invalid or failed load leaves the pages and the loading flag alone. */
  lemma CancelledLoadChangesNothing(w: World, s: State, url: string)
    requires InRange(s)
    ensures
      var t := Step(w, s, LoadURL(url));
      w.valid(url) && !Cancelled(w, s.events).0 <==> t.history != s.history || t.index != s.index || t.current != s.current
    ensures !Step(w, s, LoadURL(url)).loading
  {
  }

  // ----- the log of a run -----

  /** What the event at this place says about those before it, and asks of those behind:
      a load asks twice, goes on only where no handler prevents it, and then goes through
      all its events. */
  predicate EventOk(w: World, log: seq<Event>, i: nat)
    requires i < |log|
  {
    match log[i]
    case WillFrameNavigate =>
      && i >= 1 && log[i - 1] == DidStartNavigation
      && (!w.prevents(log[..i + 1]) ==> i + 1 < |log| && log[i + 1] == WillNavigate)
    case WillNavigate =>
      && i >= 1 && log[i - 1] == WillFrameNavigate && !w.prevents(log[..i])
      && (!w.prevents(log[..i + 1]) ==>
            i + 5 < |log| && log[i + 1..i + 6] == [DidStartLoading, DidFrameNavigate, DidNavigate, DidStopLoading, DidFinishLoad])
    case DidStartNavigation => i + 1 < |log| && (log[i + 1] == WillFrameNavigate || log[i + 1] == DidNavigateInPage)
    case DidStartLoading => i + 1 < |log| && (log[i + 1] == DidFrameNavigate || log[i + 1] == DidStopLoading)
    case DidFrameNavigate => i >= 2 && log[i - 1] == DidStartLoading && log[i - 2] == WillNavigate && !w.prevents(log[..i - 1])
    case DidStopLoading =>
      && i >= 1 && i + 1 < |log|
      && (if log[i - 1] == DidStartLoading then log[i + 1] == DidFailLoad
          else log[i - 1] == DidNavigate && log[i + 1] == DidFinishLoad)
    case DidFinishLoad => i >= 4 && log[i - 1] == DidStopLoading && log[i - 2] == DidNavigate && log[i - 3] == DidFrameNavigate
    case DidFailLoad => i >= 1 && log[i - 1] == DidStopLoading
    case DidNavigateInPage => i >= 1 && log[i - 1] == DidStartNavigation
    case DidNavigate => true
  }

  ghost predicate LogOk(w: World, log: seq<Event>)
  {
    forall i :: 0 <= i < |log| ==> EventOk(w, log, i)
  }

  lemma LogGrows(w: World, log: seq<Event>, more: seq<Event>)
    requires LogOk(w, log)
    requires forall i :: |log| <= i < |log + more| ==> EventOk(w, log + more, i)
    ensures LogOk(w, log + more)
  {
    forall i | 0 <= i < |log| ensures EventOk(w, log + more, i) {
      assert EventOk(w, log, i);
      assert (log + more)[..i] == log[..i] && (log + more)[..i + 1] == log[..i + 1];
      if i >= 1 { assert (log + more)[..i - 1] == log[..i - 1]; }
      if i + 5 < |log| { assert (log + more)[i + 1..i + 6] == log[i + 1..i + 6]; }
    }
  }

  lemma LoadLogOk(w: World, log: seq<Event>)
    requires LogOk(w, log)
    ensures
      var asked := Cancelled(w, log);
      LogOk(w, if asked.0 then asked.1 else asked.1 + LOADED)
  {
    var asked := Cancelled(w, log);
    var more := if asked.0 then asked.1[|log|..] else asked.1[|log|..] + LOADED;
    var all := log + more;
    assert all == if asked.0 then asked.1 else asked.1 + LOADED;
    assert all[..|log| + 2] == log + [DidStartNavigation] + [WillFrameNavigate];
    if |more| > 2 { assert all[..|log| + 3] == log + [DidStartNavigation] + [WillFrameNavigate] + [WillNavigate]; }
    if |more| > 3 { assert all[|log| + 3..|log| + 8] == LOADED; }
    LogGrows(w, log, more);
  }

  lemma StepLogOk(w: World, p: Pages, log: seq<Event>, c: Call)
    requires LogOk(w, log)
    ensures LogOk(w, Browsed(w, p, log, c).1)
  {
    match c
    case LoadURL(_) => LoadLogOk(w, log);
    case NavigateInPage(_) => LogGrows(w, log, [DidStartNavigation, DidNavigateInPage]);
    case FailLoad(_) => LogGrows(w, log, [DidStartLoading, DidStopLoading, DidFailLoad]);
    case _ => LogGrows(w, log, [DidNavigate]);
  }

  /** In every run the log is in order: no load goes on against its handlers or stops
      half-way. */
  lemma {:induction false} EveryLogIsOk(w: World, p: Pages, log: seq<Event>, calls: seq<Call>)
    requires LogOk(w, log)
    ensures LogOk(w, Browse(w, p, log, calls).1)
    decreases |calls|
  {
    if calls != [] {
      StepLogOk(w, p, log, calls[0]);
      var after := Browsed(w, p, log, calls[0]);
      EveryLogIsOk(w, after.0, after.1, calls[1..]);
    }
  }

  function CountOf(log: seq<Event>, e: Event): nat
  {
    if log == [] then 0 else CountOf(log[..|log| - 1], e) + if log[|log| - 1] == e then 1 else 0
  }

  lemma {:induction false} CountConcat(a: seq<Event>, b: seq<Event>, e: Event)
    ensures CountOf(a + b, e) == CountOf(a, e) + CountOf(b, e)
  {
    if b == [] {
      assert a + b == a;
    } else {
      assert (a + b)[..|a + b| - 1] == a + b[..|b| - 1];
      CountConcat(a, b[..|b| - 1], e);
    }
  }

  /** Whether a call brings about this event, told by what it does to the pages. */
  predicate Brings(w: World, p: Pages, log: seq<Event>, c: Call, e: Event)
  {
    var moved := Browsed(w, p, log, c).0 != p;
    match e
    case DidFinishLoad => c.LoadURL? && moved
    case DidNavigate => !c.NavigateInPage? && moved
    case DidNavigateInPage => c.NavigateInPage? && moved
    case DidFailLoad => c.FailLoad? && w.valid(c.url)
    case DidStartNavigation => (c.LoadURL? || c.NavigateInPage?) && w.valid(c.url)
    case _ => false
  }

  predicate Told(e: Event)
  {
    e == DidFinishLoad || e == DidNavigate || e == DidNavigateInPage || e == DidFailLoad || e == DidStartNavigation
  }

  function Brought(w: World, p: Pages, log: seq<Event>, calls: seq<Call>, e: Event): nat
    decreases |calls|
  {
    if calls == [] then 0
    else
      var after := Browsed(w, p, log, calls[0]);
      (if Brings(w, p, log, calls[0], e) then 1 else 0) + Brought(w, after.0, after.1, calls[1..], e)
  }

  lemma OneCounts(a: Event, e: Event)
    ensures CountOf([a], e) == if a == e then 1 else 0
  {
    assert [a][..0] == [];
  }

  lemma PairCounts(a: Event, b: Event, e: Event)
    ensures CountOf([a, b], e) == (if a == e then 1 else 0) + if b == e then 1 else 0
  {
    CountConcat([a], [b], e);
    assert [a] + [b] == [a, b];
    OneCounts(a, e);
    OneCounts(b, e);
  }

  lemma TripleCounts(a: Event, b: Event, c: Event, e: Event)
    ensures CountOf([a, b, c], e) == (if a == e then 1 else 0) + (if b == e then 1 else 0) + if c == e then 1 else 0
  {
    CountConcat([a, b], [c], e);
    assert [a, b] + [c] == [a, b, c];
    PairCounts(a, b, e);
    OneCounts(c, e);
  }

  lemma LoadedCounts(e: Event)
    ensures CountOf(LOADED, e) == if e in LOADED then 1 else 0
  {
    var first, rest := [DidStartLoading, DidFrameNavigate, DidNavigate], [DidStopLoading, DidFinishLoad];
    assert first + rest == LOADED;
    CountConcat(first, rest, e);
    TripleCounts(DidStartLoading, DidFrameNavigate, DidNavigate, e);
    PairCounts(DidStopLoading, DidFinishLoad, e);
    assert e in LOADED <==> e in first || e in rest;
  }

  /** The log a load leaves, prevented or not. */
  lemma AskedCounts(w: World, log: seq<Event>, e: Event)
    requires Told(e)
    ensures CountOf(Cancelled(w, log).1, e) == CountOf(log, e) + if e == DidStartNavigation then 1 else 0
  {
    CountConcat(log, [DidStartNavigation], e);
    CountConcat(log + [DidStartNavigation], [WillFrameNavigate], e);
    CountConcat(log + [DidStartNavigation] + [WillFrameNavigate], [WillNavigate], e);
    OneCounts(DidStartNavigation, e);
    OneCounts(WillFrameNavigate, e);
    OneCounts(WillNavigate, e);
  }

  lemma VisitMoves(p: Pages, url: string)
    ensures Visit(p, url) != p
  {
    assert p.Showing? ==> |p.back + [p.current]| != |p.back|;
  }

  lemma LoadBrings(w: World, p: Pages, log: seq<Event>, url: string, e: Event)
    requires Told(e)
    ensures
      var c := LoadURL(url);
      CountOf(Browsed(w, p, log, c).1, e) == CountOf(log, e) + if Brings(w, p, log, c, e) then 1 else 0
  {
    VisitMoves(p, url);
    AskedCounts(w, log, e);
    CountConcat(Cancelled(w, log).1, LOADED, e);
    LoadedCounts(e);
  }

  lemma OtherBrings(w: World, p: Pages, log: seq<Event>, c: Call, e: Event)
    requires Told(e) && !c.LoadURL?
    ensures CountOf(Browsed(w, p, log, c).1, e) == CountOf(log, e) + if Brings(w, p, log, c, e) then 1 else 0
  {
    match c
    case NavigateInPage(_) =>
      CountConcat(log, [DidStartNavigation, DidNavigateInPage], e);
      PairCounts(DidStartNavigation, DidNavigateInPage, e);
      VisitMoves(p, c.url);
    case FailLoad(_) =>
      CountConcat(log, [DidStartLoading, DidStopLoading, DidFailLoad], e);
      TripleCounts(DidStartLoading, DidStopLoading, DidFailLoad, e);
    case GoBack =>
      CountConcat(log, [DidNavigate], e);
      OneCounts(DidNavigate, e);
      assert p.Showing? && p.back != [] ==> |p.back[..|p.back| - 1]| != |p.back|;
    case GoForward =>
      CountConcat(log, [DidNavigate], e);
      OneCounts(DidNavigate, e);
      assert p.Showing? ==> |p.back + [p.current]| != |p.back|;
  }

  /** In every run the log counts what happened to the pages: a finished load for every
      page a load showed, a navigation for every move but those within a page, and so on. */
  lemma {:induction false} LogCountsMoves(w: World, p: Pages, log: seq<Event>, calls: seq<Call>, e: Event)
    requires Told(e)
    ensures CountOf(Browse(w, p, log, calls).1, e) == CountOf(log, e) + Brought(w, p, log, calls, e)
    decreases |calls|
  {
    if calls != [] {
      var after := Browsed(w, p, log, calls[0]);
      if calls[0].LoadURL? { LoadBrings(w, p, log, calls[0].url, e); } else { OtherBrings(w, p, log, calls[0], e); }
      LogCountsMoves(w, after.0, after.1, calls[1..], e);
    }
  }

  // ----- the object -----

  class WebContents {
    const world: World
    var current: string
    var history: seq<string>
    var index: int
    var loading: bool
    var events: seq<Event>

    constructor (world: World)
      ensures this.world == world && View() == Init() && Valid()
    {
      this.world := world;
      current, history, index, loading, events := "", [], -1, false, [];
    }

    ghost function View(): State
      reads this
    {
      State(history, index, current, loading, events)
    }

    ghost predicate Valid()
      reads this
    {
      InRange(View())
    }

    method CommitNavigation(url: string)
      requires -1 <= index < |history|
      modifies `history, `index, `current
      ensures View() == Commit(old(View()), url)
    {
      if index < |history| - 1 { history := history[..index + 1]; }
      assert history == old(history)[..index + 1];
      history := history + [url];
      index := |history| - 1;
      current := url;
    }

    /** The events of LoadURL that handlers can cancel. */
    method AskToNavigate() returns (cancelled: bool)
      modifies `events
      ensures (cancelled, events) == Cancelled(world, old(events))
    {
      events := events + [DidStartNavigation];
      events := events + [WillFrameNavigate];
      if world.prevents(events) { return true; }
      events := events + [WillNavigate];
      cancelled := world.prevents(events);
    }

    method LoadURL(url: string) returns (error: Option<Error>)
      requires Valid()
      modifies this
      ensures Valid() && View() == Step(world, old(View()), Call.LoadURL(url))
      ensures error == (if !world.valid(url) then Some(InvalidURL)
                        else if Cancelled(world, old(events)).0 then Some(NavigationCancelled) else None)
    {
      if !world.valid(url) { return Some(InvalidURL); }
      var cancelled := AskToNavigate();
      if cancelled { return Some(NavigationCancelled); }
      CarryOut(url);
      error := None;
    }

    method CarryOut(url: string)
      requires Valid()
      modifies this
      ensures Valid() && View() == Navigated(old(View()), url, old(events) + LOADED)
    {
      NavigatedRefines(View(), url, events + LOADED);
      loading := true;
      events := events + [DidStartLoading];
      CommitNavigation(url);
      events := events + [DidFrameNavigate, DidNavigate];
      loading := false;
      events := events + [DidStopLoading, DidFinishLoad];
      assert events == old(events) + LOADED;
    }

    method NavigateWithin(url: string) returns (ok: bool)
      requires Valid()
      modifies this
      ensures Valid() && View() == Step(world, old(View()), NavigateInPage(url))
      ensures ok == world.valid(url)
    {
      if !world.valid(url) { return false; }
      NavigatedRefines(View(), url, events + [DidStartNavigation, DidNavigateInPage]);
      events := events + [DidStartNavigation];
      CommitNavigation(url);
      events := events + [DidNavigateInPage];
      assert events == old(events) + [DidStartNavigation, DidNavigateInPage];
      ok := true;
    }

    method Fail(url: string) returns (ok: bool)
      requires Valid()
      modifies this
      ensures Valid() && View() == Step(world, old(View()), FailLoad(url))
      ensures ok == world.valid(url)
    {
      if !world.valid(url) { return false; }
      loading := true;
      events := events + [DidStartLoading];
      loading := false;
      events := events + [DidStopLoading, DidFailLoad];
      ok := true;
    }

    /** Succeeds exactly when there is a page behind, and shows it. */
    method GoBack() returns (ok: bool)
      requires Valid()
      modifies this
      ensures Valid() && View() == Step(world, old(View()), Call.GoBack)
      ensures ok <==> PagesOf(old(View())).Showing? && PagesOf(old(View())).back != []
    {
      StepRefines(world, View(), Call.GoBack);
      if index <= 0 { return false; }
      index := index - 1;
      current := history[index];
      events := events + [DidNavigate];
      ok := true;
    }

    method GoForward() returns (ok: bool)
      requires Valid()
      modifies this
      ensures Valid() && View() == Step(world, old(View()), Call.GoForward)
      ensures ok <==> PagesOf(old(View())).Showing? && PagesOf(old(View())).ahead != []
    {
      StepRefines(world, View(), Call.GoForward);
      if index < 0 || index >= |history| - 1 { return false; }
      index := index + 1;
      current := history[index];
      events := events + [DidNavigate];
      ok := true;
    }
  }
}
