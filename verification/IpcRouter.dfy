/** The handler table of the IPC router (internal/ipc/router.go:60-134). */
module IpcRouter {
  import opened Wrappers

  datatype Error = ChannelRequired | HandlerRequired | HandlerExists | NoHandler

  /** A registration: a handler and its place in the order of registrations. */
  datatype Entry = Entry(handler: int, once: bool, number: nat)

  /** `taken` lists the registrations whose handler was handed out, in order. */
  datatype Table = Table(handlers: map<string, Entry>, next: nat, taken: seq<Entry>)

  datatype Call =
    | Handle(channel: string, handler: Option<int>, once: bool)
    | Remove(channel: string)
    | Take(channel: string)

  function Init(): Table
  {
    Table(map[], 0, [])
  }

  function Refusal(t: Table, c: Call): Option<Error>
  {
    if c.Remove? then None
    else if c.channel == "" then Some(ChannelRequired)
    else if c.Handle? && c.handler.None? then Some(HandlerRequired)
    else if c.Handle? && c.channel in t.handlers then Some(HandlerExists)
    else if c.Take? && c.channel !in t.handlers then Some(NoHandler)
    else None
  }

  function Step(t: Table, c: Call): Table
  {
    if Refusal(t, c).Some? then t
    else
      match c
      case Handle(channel, handler, once) =>
        t.(handlers := t.handlers[channel := Entry(handler.value, once, t.next)], next := t.next + 1)
      case Remove(channel) => t.(handlers := t.handlers - {channel})
      case Take(channel) =>
        var e := t.handlers[channel];
        Table(if e.once then t.handlers - {channel} else t.handlers, t.next, t.taken + [e])
  }

  function Run(t: Table, calls: seq<Call>): Table
  {
    if calls == [] then t else Step(Run(t, calls[..|calls| - 1]), calls[|calls| - 1])
  }

  /** A registration sits on one channel. */
  predicate Placed(t: Table)
  {
    && (forall c :: c in t.handlers ==> c != "" && t.handlers[c].number < t.next)
    && (forall c, d :: c in t.handlers && d in t.handlers && t.handlers[c].number == t.handlers[d].number ==> c == d)
  }

  /** Taken entries are registrations; a handle-once registration that was taken is no
      longer in the table. */
  predicate Gone(t: Table)
  {
    && (forall i :: 0 <= i < |t.taken| ==> t.taken[i].number < t.next)
    && (forall c, i :: c in t.handlers && 0 <= i < |t.taken| && t.taken[i].number == t.handlers[c].number
                       ==> t.taken[i] == t.handlers[c] && !t.taken[i].once)
  }

  /** A handle-once registration appears once among the taken. */
  predicate TakenOnce(taken: seq<Entry>)
  {
    forall i, j :: 0 <= i < j < |taken| && taken[i].number == taken[j].number ==> taken[i] == taken[j] && !taken[i].once
  }

  predicate Inv(t: Table)
  {
    Placed(t) && Gone(t) && TakenOnce(t.taken)
  }

  lemma TakeKeepsInv(t: Table, channel: string)
    requires Inv(t)
    ensures Inv(Step(t, Take(channel)))
  {
  }

  lemma HandleKeepsInv(t: Table, c: Call)
    requires Inv(t) && c.Handle?
    ensures Inv(Step(t, c))
  {
  }

  lemma StepKeepsInv(t: Table, c: Call)
    requires Inv(t)
    ensures Inv(Step(t, c))
  {
    match c
    case Handle(_, _, _) => HandleKeepsInv(t, c);
    case Remove(_) =>
    case Take(channel) => TakeKeepsInv(t, channel);
  }

  /** In every run a handle-once registration is handed out at most once. */
  lemma {:induction false} OnceMeansOnce(calls: seq<Call>)
    ensures Inv(Run(Init(), calls))
    ensures
      var taken := Run(Init(), calls).taken;
      forall i, j :: 0 <= i < |taken| && 0 <= j < |taken| && taken[i].once && taken[i].number == taken[j].number ==> i == j
  {
    if calls != [] {
      OnceMeansOnce(calls[..|calls| - 1]);
      StepKeepsInv(Run(Init(), calls[..|calls| - 1]), calls[|calls| - 1]);
    }
  }

  // ----- each channel on its own -----

  /** What a call on the channel makes of its binding: the handler and whether it answers
      only once. */
  function Rebound(before: Option<(int, bool)>, c: Call): Option<(int, bool)>
  {
    match c
    case Handle(channel, handler, once) =>
      if channel == "" || handler.None? || before.Some? then before else Some((handler.value, once))
    case Remove(_) => None
    case Take(_) => if before.Some? && before.value.1 then None else before
  }

  /** What a channel is bound to, from the calls on that channel alone. */
  function Bound(calls: seq<Call>, channel: string): Option<(int, bool)>
  {
    if calls == [] then None
    else
      var before, last := Bound(calls[..|calls| - 1], channel), calls[|calls| - 1];
      if last.channel == channel then Rebound(before, last) else before
  }

  /** The handlers handed out, from the calls. */
  function Handed(calls: seq<Call>): seq<int>
  {
    if calls == [] then []
    else
      var front, last := calls[..|calls| - 1], calls[|calls| - 1];
      Handed(front) + if last.Take? && Bound(front, last.channel).Some? then [Bound(front, last.channel).value.0] else []
  }

  /** The table holds this binding for the channel. */
  predicate Holds(t: Table, channel: string, bound: Option<(int, bool)>)
  {
    if bound.None? then channel !in t.handlers
    else channel in t.handlers && (t.handlers[channel].handler, t.handlers[channel].once) == bound.value
  }

  function HandlersOf(taken: seq<Entry>): (r: seq<int>)
    ensures |r| == |taken| && forall i :: 0 <= i < |r| ==> r[i] == taken[i].handler
  {
    if taken == [] then [] else HandlersOf(taken[..|taken| - 1]) + [taken[|taken| - 1].handler]
  }

  lemma OwnCall(t: Table, c: Call, before: Option<(int, bool)>)
    requires Holds(t, c.channel, before) && (c.channel == "" ==> before.None?)
    ensures Holds(Step(t, c), c.channel, Rebound(before, c)) && (c.channel == "" ==> Rebound(before, c).None?)
  {
  }

  lemma OtherCall(t: Table, c: Call, channel: string, before: Option<(int, bool)>)
    requires Holds(t, channel, before) && c.channel != channel
    ensures Holds(Step(t, c), channel, before)
  {
  }

  /** In every run each channel is bound to what the calls on it alone say, whatever
      happens on the others. */
  lemma {:induction false} ChannelsAreIndependent(calls: seq<Call>, channel: string)
    ensures Holds(Run(Init(), calls), channel, Bound(calls, channel))
    ensures channel == "" ==> Bound(calls, channel).None?
  {
    if calls != [] {
      var front, last := calls[..|calls| - 1], calls[|calls| - 1];
      ChannelsAreIndependent(front, channel);
      if last.channel == channel {
        OwnCall(Run(Init(), front), last, Bound(front, channel));
      } else {
        OtherCall(Run(Init(), front), last, channel, Bound(front, channel));
      }
    }
  }

  lemma TakeHands(t: Table, c: Call)
    ensures
      var found := c.Take? && c.channel != "" && c.channel in t.handlers;
      HandlersOf(Step(t, c).taken) == HandlersOf(t.taken) + if found then [t.handlers[c.channel].handler] else []
  {
    if c.Take? && Refusal(t, c).None? {
      var taken := Step(t, c).taken;
      assert taken[..|taken| - 1] == t.taken;
    }
  }

  /** The handlers handed out are the bound ones, in the order of the calls. */
  lemma {:induction false} HandsOutTheBound(calls: seq<Call>)
    ensures HandlersOf(Run(Init(), calls).taken) == Handed(calls)
  {
    if calls != [] {
      var front, last := calls[..|calls| - 1], calls[|calls| - 1];
      HandsOutTheBound(front);
      ChannelsAreIndependent(front, last.channel);
      TakeHands(Run(Init(), front), last);
    }
  }

  /** What a call is refused for, in every run. */
  lemma RefusedExactly(calls: seq<Call>, c: Call)
    ensures
      var bound := Bound(calls, c.channel);
      Refusal(Run(Init(), calls), c) ==
      match c
      case Remove(_) => None
      case Handle(channel, handler, _) =>
        if channel == "" then Some(ChannelRequired) else if handler.None? then Some(HandlerRequired)
        else if bound.Some? then Some(HandlerExists) else None
      case Take(channel) => if channel == "" then Some(ChannelRequired) else if bound.None? then Some(NoHandler) else None
  {
    ChannelsAreIndependent(calls, c.channel);
  }

  class Router {
    var handlers: map<string, Entry>
    var next: nat
    ghost var taken: seq<Entry>

    constructor ()
      ensures View() == Init()
    {
      handlers, next, taken := map[], 0, [];
    }

    ghost function View(): Table
      reads this
    {
      Table(handlers, next, taken)
    }

    method HandleWith(channel: string, handler: Option<int>, once: bool) returns (error: Option<Error>)
      modifies this
      ensures View() == Step(old(View()), Handle(channel, handler, once))
      ensures error == Refusal(old(View()), Handle(channel, handler, once))
    {
      if channel == "" { return Some(ChannelRequired); }
      if handler.None? { return Some(HandlerRequired); }
      if channel in handlers { return Some(HandlerExists); }
      handlers, next := handlers[channel := Entry(handler.value, once, next)], next + 1;
      error := None;
    }

    method RemoveHandler(channel: string)
      modifies this
      ensures View() == Step(old(View()), Remove(channel))
    {
      handlers := handlers - {channel};
    }

    /** Invoke up to the point where the handler runs. */
    method TakeHandler(channel: string) returns (r: Result<int, Error>)
      modifies this
      ensures View() == Step(old(View()), Take(channel))
      ensures r == match Refusal(old(View()), Take(channel)) {
                     case Some(e) => Err(e)
                     case None => Ok(old(handlers)[channel].handler)
                   }
    {
      if channel == "" { return Err(ChannelRequired); }
      if channel !in handlers { return Err(NoHandler); }
      var entry := handlers[channel];
      if entry.once { handlers := handlers - {channel}; }
      taken := taken + [entry];
      r := Ok(entry.handler);
    }
  }
}
