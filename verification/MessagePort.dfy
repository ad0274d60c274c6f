/** A port of a message channel, one operation after the other
    (internal/ipc/router.go:22-33, 52-58, 136-202). */
module MessagePort {

  /** What a message carries does not matter here. */
  type Message(==) = int

  /** A handler: how many messages had been delivered when it was added, and what it
      has heard. */
  datatype Listener = Listener(since: nat, heard: seq<Message>)

  /** `accepted` are the messages that arrived while the port was open, `delivered`
      those handed to the handlers, `dropped` those thrown away by Close. */
  datatype Port = Port(started: bool, closed: bool, queue: seq<Message>, listeners: seq<Listener>,
                       accepted: seq<Message>, delivered: seq<Message>, dropped: seq<Message>)

  datatype Event = Start | Arrive(message: Message) | Listen | Close

  function Init(): Port
  {
    Port(false, false, [], [], [], [], [])
  }

  function HearAll(listeners: seq<Listener>, messages: seq<Message>): seq<Listener>
  {
    seq(|listeners|, i requires 0 <= i < |listeners| => listeners[i].(heard := listeners[i].heard + messages))
  }

  function HandOver(p: Port, messages: seq<Message>): Port
  {
    p.(listeners := HearAll(p.listeners, messages), delivered := p.delivered + messages)
  }

  function Started(p: Port): Port
  {
    if p.closed || p.started then p else HandOver(p.(started := true, queue := []), p.queue)
  }

  function Arrived(p: Port, m: Message): Port
  {
    if p.closed then p
    else
      var a := p.(accepted := p.accepted + [m]);
      if !p.started then a.(queue := p.queue + [m]) else HandOver(a, [m])
  }

  function Listening(p: Port): Port
  {
    p.(listeners := p.listeners + [Listener(|p.delivered|, [])])
  }

  function Closing(p: Port): Port
  {
    p.(closed := true, queue := [], listeners := [], dropped := p.dropped + p.queue)
  }

  function Step(p: Port, e: Event): Port
  {
    match e
    case Start => Started(p)
    case Arrive(m) => Arrived(p, m)
    case Listen => Listening(p)
    case Close => Closing(p)
  }

  function Run(p: Port, events: seq<Event>): Port
  {
    if events == [] then p else Step(Run(p, events[..|events| - 1]), events[|events| - 1])
  }

  /** Nothing is lost or duplicated: the accepted messages are the delivered, then the
      queued or dropped ones, in order. A handler heard what was delivered since it was
      added. A started port has no queue, an unstarted one has delivered nothing. */
  predicate Valid(p: Port)
  {
    && p.delivered + p.queue + p.dropped == p.accepted
    && (p.started ==> p.queue == [])
    && (!p.started ==> p.delivered == [])
    && (if p.closed then p.queue == [] else p.dropped == [])
    && forall l :: l in p.listeners ==> l.since <= |p.delivered| && l.heard == p.delivered[l.since..]
  }

  lemma HandOverKeeps(p: Port, messages: seq<Message>)
    requires forall l :: l in p.listeners ==> l.since <= |p.delivered| && l.heard == p.delivered[l.since..]
    ensures
      var q := HandOver(p, messages);
      forall l :: l in q.listeners ==> l.since <= |q.delivered| && l.heard == q.delivered[l.since..]
  {
  }

  lemma StepKeepsValid(p: Port, e: Event)
    requires Valid(p)
    ensures Valid(Step(p, e))
  {
    match e
    case Start =>
      if !p.closed && !p.started {
        HandOverKeeps(p.(started := true, queue := []), p.queue);
        assert p.delivered + p.queue + [] + p.dropped == p.accepted;
      }
    case Arrive(m) =>
      if !p.closed {
        HandOverKeeps(p.(accepted := p.accepted + [m]), [m]);
        assert p.delivered + (p.queue + [m]) + [] == p.accepted + [m];
        assert p.started ==> p.delivered + [m] + p.queue + p.dropped == p.accepted + [m];
      }
    case Listen =>
    case Close =>
      assert p.delivered + [] + (p.dropped + p.queue) == p.accepted;
  }

  /** On every run of an open or closed port. */
  lemma {:induction false} EveryRunIsValid(events: seq<Event>)
    ensures Valid(Run(Init(), events))
  {
    if events != [] {
      EveryRunIsValid(events[..|events| - 1]);
      StepKeepsValid(Run(Init(), events[..|events| - 1]), events[|events| - 1]);
    }
  }

  /** The messages of the events, in order. */
  function Arrivals(events: seq<Event>): seq<Message>
  {
    if events == [] then []
    else
      var last := events[|events| - 1];
      Arrivals(events[..|events| - 1]) + if last.Arrive? then [last.message] else []
  }

  /** Until it is closed, a port delivers or queues every message posted to it, in the
      order they were posted, and a handler added before Start hears all that is
      delivered. */
  lemma {:induction false} OpenPortLosesNothing(events: seq<Event>)
    requires Close !in events
    ensures
      var p := Run(Init(), events);
      && !p.closed
      && p.delivered + p.queue == Arrivals(events)
      && (Start in events ==> p.queue == [])
      && (forall l :: l in p.listeners && l.since == 0 ==> l.heard == p.delivered)
  {
    EveryRunIsValid(events);
    AcceptsAll(events);
  }

  lemma {:induction false} AcceptsAll(events: seq<Event>)
    requires Close !in events
    ensures
      var p := Run(Init(), events);
      !p.closed && p.accepted == Arrivals(events) && (p.started <==> Start in events)
  {
    if events != [] { AcceptsAll(events[..|events| - 1]); }
  }

  /** The events before the first Close. */
  function BeforeClose(events: seq<Event>): seq<Event>
  {
    if events == [] then []
    else
      var front, last := events[..|events| - 1], events[|events| - 1];
      if Close in front || last == Close then BeforeClose(front) else front + [last]
  }

  /** Where every message is, in every run: those that arrive before the first Close are
      delivered if Start was called by then, else queued, and dropped by the Close; later
      ones are ignored. */
  lemma {:induction false} EveryMessageIsPlaced(events: seq<Event>)
    ensures
      var p, open := Run(Init(), events), BeforeClose(events);
      && (p.closed <==> Close in events) && (p.started <==> Start in open)
      && p.accepted == Arrivals(open)
      && p.delivered == (if Start in open then Arrivals(open) else [])
      && p.queue == (if Start in open || Close in events then [] else Arrivals(open))
      && p.dropped == (if Start in open || Close !in events then [] else Arrivals(open))
  {
    EveryRunIsValid(events);
    PlacedByFlags(events);
  }

  lemma {:induction false} PlacedByFlags(events: seq<Event>)
    ensures
      var p, open := Run(Init(), events), BeforeClose(events);
      && (p.closed <==> Close in events) && (p.started <==> Start in open) && p.accepted == Arrivals(open)
      && (p.started ==> p.dropped == [])
  {
    if events != [] {
      var front, last := events[..|events| - 1], events[|events| - 1];
      PlacedByFlags(front);
      EveryRunIsValid(front);
      assert events == front + [last];
      if Close !in front {
        OpenIsAll(front);
        OpenIsAll(events);
      }
    }
  }

  lemma {:induction false} OpenIsAll(events: seq<Event>)
    ensures Close !in events ==> BeforeClose(events) == events
  {
  }

  /** How many handlers were added since the last Close. */
  function Listens(events: seq<Event>): nat
  {
    if events == [] then 0
    else
      match events[|events| - 1]
      case Close => 0
      case Listen => Listens(events[..|events| - 1]) + 1
      case _ => Listens(events[..|events| - 1])
  }

  /** In every run there is one handler for each Listen since the last Close. */
  lemma {:induction false} ListenersAreListens(events: seq<Event>)
    ensures |Run(Init(), events).listeners| == Listens(events)
  {
    if events != [] { ListenersAreListens(events[..|events| - 1]); }
  }

  /** Each Listen not followed by a Close adds its own handler, behind those before it,
      and it hears exactly what is delivered from then on. */
  lemma {:induction false} ListenerHears(events: seq<Event>, k: nat)
    requires k < |events| && events[k] == Listen && Close !in events[k..]
    ensures
      var p, i, since := Run(Init(), events), Listens(events[..k]), |Run(Init(), events[..k]).delivered|;
      i < |p.listeners| && since <= |p.delivered| && p.listeners[i] == Listener(since, p.delivered[since..])
  {
    EveryRunIsValid(events);
    ListenerStays(events, k);
    var p, i := Run(Init(), events), Listens(events[..k]);
    assert p.listeners[i] in p.listeners;
  }

  lemma {:induction false} ListenerStays(events: seq<Event>, k: nat)
    requires k < |events| && events[k] == Listen && Close !in events[k..]
    ensures
      var p, i := Run(Init(), events), Listens(events[..k]);
      i < |p.listeners| && p.listeners[i].since == |Run(Init(), events[..k]).delivered|
    decreases |events|
  {
    var front := events[..|events| - 1];
    if k == |events| - 1 {
      ListenersAreListens(front);
    } else {
      assert front[..k] == events[..k] && front[k..] == events[k..][..|front| - k];
      assert events[|events| - 1] == events[k..][|events| - 1 - k];
      ListenerStays(front, k);
    }
  }

  // ----- the two ports -----

  class MessagePort {
    var peer: MessagePort?
    var started: bool
    var closed: bool
    var queue: seq<Message>
    var listeners: seq<Listener>
    ghost var accepted: seq<Message>
    ghost var delivered: seq<Message>
    ghost var dropped: seq<Message>
    var count: nat   // the length of `delivered`, for a listener's `since`

    constructor ()
      ensures View() == Init() && peer == null && Consistent()
    {
      peer, started, closed, queue, listeners, count := null, false, false, [], [], 0;
      accepted, delivered, dropped := [], [], [];
    }

    ghost predicate Consistent()
      reads this
    {
      count == |delivered|
    }

    ghost function View(): Port
      reads this
    {
      Port(started, closed, queue, listeners, accepted, delivered, dropped)
    }

    method Hand(messages: seq<Message>)
      requires Consistent()
      modifies `listeners, `delivered, `count
      ensures Consistent() && View() == HandOver(old(View()), messages)
    {
      listeners := HearAll(listeners, messages);
      delivered := delivered + messages;
      count := count + |messages|;
    }

    method Start()
      requires Consistent()
      modifies this
      ensures Consistent() && peer == old(peer) && View() == Started(old(View()))
    {
      if closed || started { return; }
      started := true;
      var queued := queue;
      queue := [];
      Hand(queued);
    }

    method OnMessage()
      requires Consistent()
      modifies this
      ensures Consistent() && peer == old(peer) && View() == Listening(old(View()))
    {
      listeners := listeners + [Listener(count, [])];
    }

    method Deliver(m: Message)
      requires Consistent()
      modifies this
      ensures Consistent() && peer == old(peer) && View() == Arrived(old(View()), m)
    {
      if closed { return; }
      accepted := accepted + [m];
      if !started {
        queue := queue + [m];
        return;
      }
      Hand([m]);
    }

    /** Success says only that this end is open: the message arrives at the other end
        exactly when that is open too. This end does not change. */
    method PostMessage(m: Message) returns (ok: bool)
      requires peer != null && peer != this ==> peer.Consistent()
      requires peer != this
      modifies peer
      ensures ok <==> !closed && peer != null
      ensures ok ==> peer.Consistent() && peer.peer == old(peer.peer) && peer.View() == Arrived(old(peer.View()), m)
      ensures ok ==> peer.accepted == old(peer.accepted) + if old(peer.closed) then [] else [m]
      ensures !ok && peer != null ==> peer.View() == old(peer.View())
    {
      if closed || peer == null { return false; }
      peer.Deliver(m);
      ok := true;
    }

    method Close()
      requires Consistent()
      modifies this
      ensures Consistent() && peer == old(peer) && View() == Closing(old(View()))
    {
      dropped := dropped + queue;
      closed, queue, listeners := true, [], [];
    }
  }

  method NewMessageChannel() returns (a: MessagePort, b: MessagePort)
    ensures fresh(a) && fresh(b) && a != b && a.peer == b && b.peer == a
    ensures a.View() == Init() && b.View() == Init() && a.Consistent() && b.Consistent()
  {
    a := new MessagePort();
    b := new MessagePort();
    a.peer, b.peer := b, a;
  }
}
