/** The dispatcher's bounded queue, its worker and its shutdown
    (internal/native/dispatcher.go:230-409) as a state machine over the atomic
    steps of enqueuing callers, the worker goroutine and Shutdown calls. */
module Dispatcher {
  import opened Sequences
  import opened Wrappers

  /** One call of Dispatch or TryDispatch that passed the closed check; it owns a
      result channel of capacity one. */
  type Item = nat
  type Call = nat

  datatype Worker = Waiting | Handling(item: Item) | Exited

  /** Where a Shutdown call and the goroutine it starts have got to. */
  datatype Phase =
    | Swapped                // won the compare-and-swap, `done` not closed yet
    | Joining                // goroutine waits for the worker
    | Draining               // in rejectQueued
    | Holding(item: Item)    // took an item, reply not sent yet
    | Drained(seen: nat)     // saw the queue empty when `seen` items had been enqueued

  datatype HandlerEvent = Started(item: Item) | Finished(item: Item)

  /** The last four fields are history: the order of sends, takes and replies, the
      handler log, and who had passed the closed check when it was set. */
  datatype State = State(
    capacity: nat, queue: seq<Item>, worker: Worker, closed: bool, done: bool,
    pending: set<Item>, next: Item, shutdowns: map<Call, Phase>, returnedNil: set<Call>,
    enqueued: seq<Item>, taken: seq<Item>, answered: seq<Item>, log: seq<HandlerEvent>, early: set<Item>)

  datatype Refusal = ContextDone | DispatcherClosed | Backpressure | PrepareFailed

  datatype Action =
    | PassCheck
    | Send(item: Item)
    | GiveUp(item: Item, why: Refusal)
    | WorkerTake
    | WorkerReply
    | WorkerExit
    | Swap(call: Call)
    | CloseDone(call: Call)
    | Join(call: Call)
    | DrainTake(call: Call)
    | DrainReply(call: Call)
    | DrainEmpty(call: Call)
    | ReturnNil(call: Call)

  function Init(capacity: nat): State
  {
    State(capacity, [], Waiting, false, false, {}, 0, map[], {}, [], [], [], [], {})
  }

  function PhaseOf(s: State, call: Call): Option<Phase>
  {
    if call in s.shutdowns then Some(s.shutdowns[call]) else None
  }

  function Elements(items: seq<Item>): set<Item>
  {
    set i | i in items
  }

  /** One atomic step; None when it is not enabled. */
  function Step(s: State, a: Action): Option<State>
  {
    match a
    case PassCheck =>
      if s.closed then None else Some(s.(pending := s.pending + {s.next}, next := s.next + 1))
    case Send(item) =>
      if item in s.pending && |s.queue| < s.capacity
      then Some(s.(pending := s.pending - {item}, queue := s.queue + [item], enqueued := s.enqueued + [item]))
      else None
    case GiveUp(item, why) =>
      if item in s.pending && (why == DispatcherClosed ==> s.done) && (why == Backpressure ==> |s.queue| >= s.capacity && !s.done)
      then Some(s.(pending := s.pending - {item}))
      else None
    case WorkerTake =>
      if s.worker == Waiting && s.queue != []
      then Some(s.(worker := Handling(s.queue[0]), queue := s.queue[1..], taken := s.taken + [s.queue[0]], log := s.log + [Started(s.queue[0])]))
      else None
    case WorkerReply =>
      if s.worker.Handling?
      then Some(s.(worker := Waiting, answered := s.answered + [s.worker.item], log := s.log + [Finished(s.worker.item)]))
      else None
    case WorkerExit =>
      if s.worker == Waiting && s.done then Some(s.(worker := Exited)) else None
    case Swap(call) =>
      if call in s.shutdowns then None
      else if s.closed then Some(s.(shutdowns := s.shutdowns[call := Joining]))
      else Some(s.(closed := true, early := s.pending + Elements(s.enqueued), shutdowns := s.shutdowns[call := Swapped]))
    case CloseDone(call) =>
      if PhaseOf(s, call) == Some(Swapped) then Some(s.(done := true, shutdowns := s.shutdowns[call := Joining])) else None
    case Join(call) =>
      if PhaseOf(s, call) == Some(Joining) && s.worker == Exited then Some(s.(shutdowns := s.shutdowns[call := Draining])) else None
    case DrainTake(call) =>
      if PhaseOf(s, call) == Some(Draining) && s.queue != []
      then Some(s.(shutdowns := s.shutdowns[call := Holding(s.queue[0])], queue := s.queue[1..], taken := s.taken + [s.queue[0]]))
      else None
    case DrainReply(call) =>
      if PhaseOf(s, call).Some? && s.shutdowns[call].Holding?
      then Some(s.(shutdowns := s.shutdowns[call := Draining], answered := s.answered + [s.shutdowns[call].item]))
      else None
    case DrainEmpty(call) =>
      if PhaseOf(s, call) == Some(Draining) && s.queue == []
      then Some(s.(shutdowns := s.shutdowns[call := Drained(|s.enqueued|)]))
      else None
    case ReturnNil(call) =>
      if PhaseOf(s, call).Some? && s.shutdowns[call].Drained? then Some(s.(returnedNil := s.returnedNil + {call})) else None
  }

  function Run(s: State, actions: seq<Action>): Option<State>
    decreases |actions|
  {
    if actions == [] then Some(s)
    else match Step(s, actions[0])
      case None => None
      case Some(t) => Run(t, actions[1..])
  }

  // ----- the invariant -----

  /** A drain goroutine has taken the item and not replied yet. */
  predicate HeldBy(s: State, call: Call, item: Item)
  {
    call in s.shutdowns && s.shutdowns[call] == Holding(item)
  }

  ghost predicate Held(s: State, item: Item)
  {
    exists call :: HeldBy(s, call, item)
  }

  predicate Handled(s: State, item: Item)
  {
    s.worker == Handling(item)
  }

  /** The items in order: taken ones, then queued ones; fresh ids stay fresh. */
  ghost predicate QueueOk(s: State)
  {
    && s.enqueued == s.taken + s.queue && Distinct(s.enqueued)
    && |s.queue| <= s.capacity
    && (forall i :: i in s.enqueued ==> i < s.next && i !in s.pending)
    && (forall i :: i in s.pending ==> i < s.next)
  }

  /** Taken items are in one hand or answered once. */
  ghost predicate HandsOk(s: State)
  {
    && Distinct(s.answered)
    && (forall i :: i in s.answered ==> i in s.taken && !Handled(s, i))
    && (forall i, c :: HeldBy(s, c, i) ==> i in s.taken && i !in s.answered && !Handled(s, i))
    && (forall i, c, d :: HeldBy(s, c, i) && HeldBy(s, d, i) ==> c == d)
    && (forall i :: i in s.taken ==> i in s.answered || Handled(s, i) || Held(s, i))
    && (s.worker.Handling? ==> s.worker.item in s.taken)
  }

  predicate PhaseOk(s: State, phase: Phase)
  {
    match phase
    case Swapped => s.closed && !s.done
    case Joining => s.closed
    case Draining => s.worker.Exited?
    case Holding(_) => s.worker.Exited?
    case Drained(seen) => s.worker.Exited? && seen <= |s.taken|
  }

  ghost predicate ShutdownOk(s: State)
  {
    && (s.worker.Exited? ==> s.done) && (s.done ==> s.closed)
    && (s.closed ==> s.pending + Elements(s.enqueued) <= s.early)
    && (forall c :: c in s.shutdowns ==> PhaseOk(s, s.shutdowns[c]))
    && (forall c, d :: PhaseOf(s, c) == Some(Swapped) && PhaseOf(s, d) == Some(Swapped) ==> c == d)
    && (forall c :: c in s.returnedNil ==> c in s.shutdowns && s.shutdowns[c].Drained?)
  }

  /** The item whose handler runs after this log: None when the log is not an
      alternation of a start and the finish of the same item. */
  function Running(log: seq<HandlerEvent>): Option<Option<Item>>
  {
    if log == [] then Some(None)
    else
      match log[|log| - 1]
      case Started(i) => if Running(log[..|log| - 1]) == Some(None) then Some(Some(i)) else None
      case Finished(i) => if Running(log[..|log| - 1]) == Some(Some(i)) then Some(None) else None
  }

  ghost predicate LogOk(s: State)
  {
    Running(s.log) == Some(if s.worker.Handling? then Some(s.worker.item) else None)
  }

  ghost predicate Inv(s: State)
  {
    QueueOk(s) && HandsOk(s) && ShutdownOk(s) && LogOk(s)
  }

  lemma StepKeepsQueue(s: State, a: Action)
    requires QueueOk(s) && Step(s, a).Some?
    ensures QueueOk(Step(s, a).value)
  {
  }

  /** The front of the queue has not been taken yet. */
  lemma FrontIsNew(s: State)
    requires QueueOk(s) && s.queue != []
    ensures s.queue[0] !in s.taken
  {
    assert s.enqueued[|s.taken|] == s.queue[0];
    assert forall k :: 0 <= k < |s.taken| ==> s.enqueued[k] == s.taken[k];
  }

  lemma TakeKeepsHands(s: State, a: Action)
    requires Inv(s) && Step(s, a).Some? && (a.WorkerTake? || a.DrainTake?)
    ensures HandsOk(Step(s, a).value)
  {
    var t := Step(s, a).value;
    var item := s.queue[0];
    FrontIsNew(s);
    assert forall i :: i in t.taken <==> i in s.taken || i == item;
    if a.WorkerTake? {
      assert forall c, i :: HeldBy(t, c, i) <==> HeldBy(s, c, i);
    } else {
      assert forall c, i :: HeldBy(t, c, i) <==> if c == a.call then i == item else HeldBy(s, c, i);
      assert HeldBy(t, a.call, item);
    }
    forall i | i in s.taken
      ensures i in t.answered || Handled(t, i) || Held(t, i)
    {
      if c :| HeldBy(s, c, i) {
        assert HeldBy(t, c, i);
      }
    }
  }

  lemma ReplyKeepsHands(s: State, a: Action)
    requires Inv(s) && Step(s, a).Some? && (a.WorkerReply? || a.DrainReply?)
    ensures HandsOk(Step(s, a).value)
  {
    var t := Step(s, a).value;
    var item := if a.WorkerReply? then s.worker.item else s.shutdowns[a.call].item;
    assert forall i :: i in t.answered <==> i in s.answered || i == item;
    if a.WorkerReply? {
      assert Handled(s, item);
      assert forall c, i :: HeldBy(t, c, i) <==> HeldBy(s, c, i);
    } else {
      assert HeldBy(s, a.call, item);
      assert forall c, i :: HeldBy(t, c, i) <==> c != a.call && HeldBy(s, c, i);
    }
    forall i | i in t.taken
      ensures i in t.answered || Handled(t, i) || Held(t, i)
    {
      if c :| HeldBy(s, c, i) {
        assert HeldBy(t, c, i) || i == item;
      }
    }
  }

  lemma StepKeepsHands(s: State, a: Action)
    requires Inv(s) && Step(s, a).Some?
    ensures HandsOk(Step(s, a).value)
  {
    var t := Step(s, a).value;
    if a.WorkerTake? || a.DrainTake? {
      TakeKeepsHands(s, a);
    } else if a.WorkerReply? || a.DrainReply? {
      ReplyKeepsHands(s, a);
    } else {
      assert forall c, i :: HeldBy(t, c, i) <==> HeldBy(s, c, i);
      assert forall i :: Held(s, i) ==> Held(t, i);
    }
  }

  lemma StepKeepsShutdown(s: State, a: Action)
    requires Inv(s) && Step(s, a).Some?
    ensures ShutdownOk(Step(s, a).value)
  {
    var t := Step(s, a).value;
    forall c | c in t.shutdowns
      ensures PhaseOk(t, t.shutdowns[c])
    {
      assert PhaseOf(s, c) == Some(Swapped) ==> c in s.shutdowns && PhaseOk(s, s.shutdowns[c]);
      if a.CloseDone? && c != a.call {
        assert PhaseOf(s, c) != Some(Swapped);
      }
    }
    forall c, d | PhaseOf(t, c) == Some(Swapped) && PhaseOf(t, d) == Some(Swapped)
      ensures c == d
    {
      assert PhaseOf(s, c) == Some(Swapped) ==> PhaseOk(s, s.shutdowns[c]);
      assert PhaseOf(s, d) == Some(Swapped) ==> PhaseOk(s, s.shutdowns[d]);
    }
  }

  lemma StepKeepsLog(s: State, a: Action)
    requires Inv(s) && Step(s, a).Some?
    ensures LogOk(Step(s, a).value)
  {
  }

  lemma {:induction false} RunKeepsInv(s: State, actions: seq<Action>)
    requires Inv(s) && Run(s, actions).Some?
    ensures Inv(Run(s, actions).value)
    decreases |actions|
  {
    if actions != [] {
      StepKeepsQueue(s, actions[0]);
      StepKeepsHands(s, actions[0]);
      StepKeepsShutdown(s, actions[0]);
      StepKeepsLog(s, actions[0]);
      RunKeepsInv(Step(s, actions[0]).value, actions[1..]);
    }
  }

  ghost predicate Reachable(s: State, capacity: nat)
  {
    exists actions :: Run(Init(capacity), actions) == Some(s)
  }

  lemma ReachableInv(s: State, capacity: nat)
    requires Reachable(s, capacity)
    ensures Inv(s)
  {
    var actions :| Run(Init(capacity), actions) == Some(s);
    RunKeepsInv(Init(capacity), actions);
  }

  // ----- what every reachable state keeps -----

  function Bit(b: bool): nat
  {
    if b then 1 else 0
  }

  /** In how many places an accepted item is: queue, worker, drains, answered. */
  ghost function Places(s: State, item: Item): nat
  {
    Bit(item in s.queue) + Bit(Handled(s, item)) + Bit(Held(s, item)) + Bit(item in s.answered)
  }

  ghost predicate AtMostOneHolder(s: State, item: Item)
  {
    forall c, d :: HeldBy(s, c, item) && HeldBy(s, d, item) ==> c == d
  }

  /** Every accepted item is in exactly one place; no item is answered twice, so the
      single slot of its result channel is always free when the reply is sent. */
  lemma ExactlyOnePlace(s: State, capacity: nat, item: Item)
    requires Reachable(s, capacity) && item in s.enqueued
    ensures Places(s, item) == 1 && AtMostOneHolder(s, item)
    ensures forall i, j :: 0 <= i < j < |s.answered| ==> s.answered[i] != s.answered[j]
  {
    ReachableInv(s, capacity);
    if item in s.queue {
      var j :| 0 <= j < |s.queue| && s.queue[j] == item;
      assert s.enqueued[|s.taken| + j] == item;
      assert forall k :: 0 <= k < |s.taken| ==> s.enqueued[k] == s.taken[k];
    }
  }

  /** A reply always finds the item's result channel empty. */
  lemma ReplyNeverBlocks(s: State, capacity: nat, a: Action)
    requires Reachable(s, capacity) && Step(s, a).Some?
    ensures a.WorkerReply? ==> s.worker.item !in s.answered
    ensures a.DrainReply? ==> s.shutdowns[a.call].item !in s.answered
  {
    ReachableInv(s, capacity);
    if a.DrainReply? {
      assert HeldBy(s, a.call, s.shutdowns[a.call].item);
    }
    if a.WorkerReply? {
      assert Handled(s, s.worker.item);
    }
  }

  /** Items leave the queue in the order they entered it, and it never overflows. */
  lemma FirstInFirstOut(s: State, capacity: nat)
    requires Reachable(s, capacity)
    ensures s.taken <= s.enqueued && s.queue == s.enqueued[|s.taken|..] && |s.queue| <= capacity
  {
    ReachableInv(s, capacity);
    var actions :| Run(Init(capacity), actions) == Some(s);
    CapacityIsFixed(Init(capacity), actions);
  }

  lemma {:induction false} CapacityIsFixed(s: State, actions: seq<Action>)
    requires Run(s, actions).Some?
    ensures Run(s, actions).value.capacity == s.capacity
    decreases |actions|
  {
    if actions != [] {
      CapacityIsFixed(Step(s, actions[0]).value, actions[1..]);
    }
  }

  /** Between two handler starts the first handler has finished. */
  lemma {:induction false} StartsAreSeparated(log: seq<HandlerEvent>, i: nat, j: nat)
    requires Running(log).Some? && i < j < |log| && log[i].Started? && log[j].Started?
    ensures exists k :: i < k < j && log[k] == Finished(log[i].item)
    decreases |log|
  {
    var front := log[..|log| - 1];
    if j < |front| {
      StartsAreSeparated(front, i, j);
      var k :| i < k < j && front[k] == Finished(front[i].item);
      assert log[k] == Finished(log[i].item);
    } else {
      var k := FinishOfLastStart(front, i);
    }
  }

  lemma {:induction false} FinishOfLastStart(log: seq<HandlerEvent>, i: nat) returns (k: nat)
    requires Running(log) == Some(None) && i < |log| && log[i].Started?
    ensures i < k < |log| && log[k] == Finished(log[i].item)
    decreases |log|
  {
    k := |log| - 1;
    var front := log[..k];
    assert front[|front| - 1] == Started(log[k].item);
    if i < k - 1 {
      assert front[..k - 1] == log[..k - 1];
      k := FinishOfLastStart(front[..k - 1], i);
    }
  }

  lemma HandlersNeverOverlap(s: State, capacity: nat, i: nat, j: nat)
    requires Reachable(s, capacity) && i < j < |s.log| && s.log[i].Started? && s.log[j].Started?
    ensures exists k :: i < k < j && s.log[k] == Finished(s.log[i].item)
  {
    ReachableInv(s, capacity);
    StartsAreSeparated(s.log, i, j);
  }

  // ----- after Shutdown -----

  lemma {:induction false} ExitedStays(s: State, actions: seq<Action>)
    requires s.worker.Exited? && Run(s, actions).Some?
    ensures Run(s, actions).value.worker.Exited? && Run(s, actions).value.log == s.log
    decreases |actions|
  {
    if actions != [] {
      ExitedStays(Step(s, actions[0]).value, actions[1..]);
    }
  }

  /** Once some Shutdown returned nil the worker is gone and no handler starts again. */
  lemma NoHandlerAfterShutdown(s: State, capacity: nat, call: Call, actions: seq<Action>)
    requires Reachable(s, capacity) && call in s.returnedNil && Run(s, actions).Some?
    ensures Run(s, actions).value.worker.Exited? && Run(s, actions).value.log == s.log
  {
    ReachableInv(s, capacity);
    assert PhaseOk(s, s.shutdowns[call]);
    ExitedStays(s, actions);
  }

  ghost predicate SomeoneHoldsBefore(s: State, seen: nat)
    requires seen <= |s.enqueued|
  {
    exists c, i :: HeldBy(s, c, i) && i in s.enqueued[..seen]
  }

  /** When a drain has seen the queue empty, every item enqueued before that is
      answered, exactly once, or held by the drain of another Shutdown call. */
  lemma DrainedItemsAreAnswered(s: State, capacity: nat, call: Call)
    requires Reachable(s, capacity) && call in s.shutdowns && s.shutdowns[call].Drained?
    ensures s.shutdowns[call].seen <= |s.enqueued|
    ensures forall i :: i in s.enqueued[..s.shutdowns[call].seen] ==> i in s.answered || Held(s, i)
    ensures (forall i :: i in s.enqueued[..s.shutdowns[call].seen] ==> i in s.answered)
      <==> !SomeoneHoldsBefore(s, s.shutdowns[call].seen)
  {
    ReachableInv(s, capacity);
    assert PhaseOk(s, s.shutdowns[call]);
    var seen := s.shutdowns[call].seen;
    forall i | i in s.enqueued[..seen]
      ensures i in s.taken && (i in s.answered || Held(s, i))
    {
      var k :| 0 <= k < seen && s.enqueued[k] == i;
      assert s.taken[k] == i;
    }
  }

  /** Every call whose drain has ended left all items enqueued before that answered. */
  ghost predicate DrainsAnswered(s: State)
  {
    forall c, k :: 0 <= k < |s.enqueued| && SeenBy(s, c, k) ==> s.enqueued[k] in s.answered
  }

  /** A drain sees the queue empty while another call holds an item it has taken. */
  ghost predicate EndsTooEarly(s: State, a: Action)
  {
    a.DrainEmpty? && exists i :: Held(s, i)
  }

  /** What a call's drain saw does not change; nor does the order of the items. */
  lemma SeenStays(s: State, a: Action, c: Call, k: nat)
    requires Inv(s) && Step(s, a).Some? && !(a.DrainEmpty? && a.call == c)
    ensures SeenBy(Step(s, a).value, c, k) ==> SeenBy(s, c, k) && k < |s.enqueued|
    ensures s.enqueued <= Step(s, a).value.enqueued
  {
    if SeenBy(Step(s, a).value, c, k) { assert PhaseOk(s, s.shutdowns[c]); }
  }

  lemma DrainsStep(s: State, a: Action)
    requires Inv(s) && DrainsAnswered(s) && Step(s, a).Some?
    ensures DrainsAnswered(Step(s, a).value) <==> !EndsTooEarly(s, a)
  {
    var t := Step(s, a).value;
    if EndsTooEarly(s, a) {
      var i :| Held(s, i);
      var c :| HeldBy(s, c, i);
      var k :| 0 <= k < |s.taken| && s.taken[k] == i;
      assert SeenBy(t, a.call, k) && t.enqueued[k] !in t.answered;
    } else {
      forall c, k | 0 <= k < |t.enqueued| && SeenBy(t, c, k) ensures t.enqueued[k] in t.answered {
        if a.DrainEmpty? && a.call == c {
          assert !Held(s, s.taken[k]) && PhaseOk(s, s.shutdowns[c]);
        } else {
          SeenStays(s, a, c, k);
        }
      }
    }
  }

  ghost predicate DrainsAnsweredThroughout(s: State, actions: seq<Action>)
    requires Run(s, actions).Some?
    decreases |actions|
  {
    DrainsAnswered(s) && (actions == [] || DrainsAnsweredThroughout(Step(s, actions[0]).value, actions[1..]))
  }

  ghost predicate NoDrainEndsTooEarly(s: State, actions: seq<Action>)
    requires Run(s, actions).Some?
    decreases |actions|
  {
    actions == [] || (!EndsTooEarly(s, actions[0]) && NoDrainEndsTooEarly(Step(s, actions[0]).value, actions[1..]))
  }

  /** Throughout a run every ended drain left everything enqueued before it answered, if
      and only if no drain saw the queue empty while another call held an item. */
  lemma DrainsAnsweredExactly(capacity: nat, actions: seq<Action>)
    requires Run(Init(capacity), actions).Some?
    ensures DrainsAnsweredThroughout(Init(capacity), actions) <==> NoDrainEndsTooEarly(Init(capacity), actions)
  {
    DrainsRun(Init(capacity), actions);
  }

  lemma {:induction false} DrainsRun(s: State, actions: seq<Action>)
    requires Inv(s) && DrainsAnswered(s) && Run(s, actions).Some?
    ensures DrainsAnsweredThroughout(s, actions) <==> NoDrainEndsTooEarly(s, actions)
    decreases |actions|
  {
    if actions != [] {
      DrainsStep(s, actions[0]);
      if !EndsTooEarly(s, actions[0]) {
        RunKeepsInv(s, actions[..1]);
        assert actions[..1][1..] == [];
        DrainsRun(Step(s, actions[0]).value, actions[1..]);
      }
    }
  }

  /** Shutdown has been called, and every call's drain has seen the queue empty. Where
      every call has returned nil this holds. */
  predicate AllDrained(s: State)
  {
    s.shutdowns.Keys != {} && forall c :: c in s.shutdowns ==> s.shutdowns[c].Drained?
  }

  lemma AllReturned(s: State, capacity: nat)
    requires Reachable(s, capacity) && s.shutdowns.Keys != {} && s.returnedNil == s.shutdowns.Keys
    ensures AllDrained(s)
  {
    ReachableInv(s, capacity);
    assert forall c :: c in s.shutdowns ==> c in s.returnedNil;
  }

  /** The drain of this call ended after the k-th item had been enqueued. */
  predicate SeenBy(s: State, c: Call, k: nat)
  {
    c in s.shutdowns && s.shutdowns[c].Drained? && k < s.shutdowns[c].seen
  }

  ghost predicate Seen(s: State, k: nat)
  {
    exists c :: SeenBy(s, c, k)
  }

  predicate SawAll(s: State, c: Call)
  {
    c in s.shutdowns && s.shutdowns[c] == Drained(|s.taken|)
  }

  /** The last drain to end saw everything taken, and nothing has been taken since. */
  ghost predicate LastSawAll(s: State)
  {
    AllDrained(s) ==> exists c :: SawAll(s, c)
  }

  lemma StepKeepsLast(s: State, a: Action)
    requires Inv(s) && LastSawAll(s) && Step(s, a).Some?
    ensures LastSawAll(Step(s, a).value)
  {
    var t := Step(s, a).value;
    if AllDrained(t) {
      if a.DrainEmpty? {
        assert SawAll(t, a.call);
      } else {
        assert forall c :: c in s.shutdowns ==> c in t.shutdowns;
        SameDrains(s, a);
        var c :| SawAll(s, c);
        assert PhaseOk(s, s.shutdowns[c]);
        assert SawAll(t, c);
      }
    }
  }

  /** Only the end of a drain makes the last call drained. */
  lemma SameDrains(s: State, a: Action)
    requires Step(s, a).Some? && AllDrained(Step(s, a).value) && !a.DrainEmpty?
    ensures Step(s, a).value.shutdowns == s.shutdowns
  {
  }

  lemma {:induction false} RunKeepsLast(s: State, actions: seq<Action>)
    requires Inv(s) && LastSawAll(s) && Run(s, actions).Some?
    ensures LastSawAll(Run(s, actions).value)
    decreases |actions|
  {
    if actions != [] {
      StepKeepsLast(s, actions[0]);
      RunKeepsInv(s, actions[..1]);
      assert actions[..1][1..] == [];
      RunKeepsLast(Step(s, actions[0]).value, actions[1..]);
    }
  }

  /** In every reachable state in which Shutdown was called and all calls have drained:
      an enqueued item is answered if and only if it was enqueued before some call's
      drain saw the queue empty. All others are still queued. */
  lemma AnsweredExactly(s: State, capacity: nat, k: nat)
    requires Reachable(s, capacity) && AllDrained(s) && k < |s.enqueued|
    ensures s.enqueued[k] in s.answered <==> Seen(s, k)
    ensures s.enqueued[k] in s.queue <==> !Seen(s, k)
  {
    ReachableInv(s, capacity);
    var actions :| Run(Init(capacity), actions) == Some(s);
    RunKeepsLast(Init(capacity), actions);
    var last :| SawAll(s, last);
    forall c | SeenBy(s, c, k) ensures k < |s.taken| { assert PhaseOk(s, s.shutdowns[c]); }
    if k < |s.taken| {
      assert SeenBy(s, last, k);
      TakenIsAnswered(s, last, k);
    } else {
      assert s.queue[k - |s.taken|] == s.enqueued[k];
      QueuedIsOpen(s, k);
    }
  }

  /** With every call drained no one holds an item, so a taken one is answered. */
  lemma TakenIsAnswered(s: State, c: Call, k: nat)
    requires Inv(s) && AllDrained(s) && SawAll(s, c) && k < |s.taken|
    ensures s.enqueued[k] in s.answered && s.enqueued[k] !in s.queue
  {
    assert PhaseOk(s, s.shutdowns[c]);
    assert s.enqueued[k] == s.taken[k];
    assert forall d :: !HeldBy(s, d, s.taken[k]);
    forall j | 0 <= j < |s.queue| ensures s.queue[j] != s.taken[k] { assert s.enqueued[|s.taken| + j] == s.queue[j]; }
  }

  lemma QueuedIsOpen(s: State, k: nat)
    requires Inv(s) && |s.taken| <= k < |s.enqueued|
    ensures s.enqueued[k] !in s.answered
  {
    assert forall j :: 0 <= j < |s.taken| ==> s.enqueued[j] == s.taken[j];
  }

  /** The case of a single call: its nil return means every item enqueued before the
      queue was seen empty has its reply, and no other enqueued item has. */
  lemma SingleShutdownAnswersAll(s: State, capacity: nat, call: Call)
    requires Reachable(s, capacity) && s.shutdowns.Keys == {call} && call in s.returnedNil
    ensures s.shutdowns[call].Drained? && s.shutdowns[call].seen <= |s.enqueued|
    ensures forall k :: 0 <= k < |s.enqueued| ==> (s.enqueued[k] in s.answered <==> k < s.shutdowns[call].seen)
  {
    ReachableInv(s, capacity);
    DrainedItemsAreAnswered(s, capacity, call);
    forall k | 0 <= k < |s.enqueued| ensures s.enqueued[k] in s.answered <==> k < s.shutdowns[call].seen {
      AnsweredExactly(s, capacity, k);
      assert SeenBy(s, call, k) <==> k < s.shutdowns[call].seen;
    }
  }

  /** Items that reach the queue late were sent by callers that had passed the
      closed check before the dispatcher was closed. */
  lemma LateItemsPassedEarly(s: State, capacity: nat, item: Item)
    requires Reachable(s, capacity) && s.closed && (item in s.enqueued || item in s.pending)
    ensures item in s.early
  {
    ReachableInv(s, capacity);
  }

  /** `done` is closed at most once: no step closes it again, which would panic. */
  lemma DoneIsClosedOnce(s: State, capacity: nat, call: Call)
    requires Reachable(s, capacity) && Step(s, CloseDone(call)).Some?
    ensures s.closed && !s.done
  {
    ReachableInv(s, capacity);
    assert PhaseOk(s, s.shutdowns[call]);
  }

  // ----- two runs that show the limits -----

  lemma {:induction false} RunSnoc(s: State, actions: seq<Action>, a: Action)
    requires Run(s, actions).Some?
    ensures Run(s, actions + [a]) == Step(Run(s, actions).value, a)
    decreases |actions|
  {
    if actions == [] {
      assert ([] + [a])[1..] == [];
    } else {
      assert (actions + [a])[1..] == actions[1..] + [a];
      RunSnoc(Step(s, actions[0]).value, actions[1..], a);
    }
  }

  lemma Next(s: State, capacity: nat, a: Action) returns (t: State)
    requires Reachable(s, capacity) && Step(s, a).Some?
    ensures t == Step(s, a).value && Reachable(t, capacity)
  {
    t := Step(s, a).value;
    var actions :| Run(Init(capacity), actions) == Some(s);
    RunSnoc(Init(capacity), actions, a);
    assert Run(Init(capacity), actions + [a]) == Some(t);
  }

  lemma Beginning(capacity: nat) returns (s: State)
    ensures s == Init(capacity) && Reachable(s, capacity)
  {
    s := Init(capacity);
    assert Run(s, []) == Some(s);
  }

  lemma ClosedWithOneItem(capacity: nat) returns (s: State)
    requires capacity >= 1
    ensures Reachable(s, capacity)
    ensures s == State(capacity, [0], Exited, true, true, {}, 1, map[1 := Joining], {}, [0], [], [], [], {0})
  {
    s := Beginning(capacity);
    s := Next(s, capacity, PassCheck);
    s := Next(s, capacity, Send(0));
    assert s.queue == [0] && s.enqueued == [0] && s.pending == {};
    s := Next(s, capacity, Swap(1));
    s := Next(s, capacity, CloseDone(1));
    s := Next(s, capacity, WorkerExit);
    assert s.early == {0} && s.shutdowns == map[1 := Joining];
  }

  lemma TwoDrains(capacity: nat) returns (s: State)
    requires capacity >= 1
    ensures Reachable(s, capacity)
    ensures s == State(capacity, [0], Exited, true, true, {}, 1, map[1 := Draining, 2 := Draining], {}, [0], [], [], [], {0})
  {
    s := ClosedWithOneItem(capacity);
    s := Next(s, capacity, Swap(2));
    s := Next(s, capacity, Join(1));
    s := Next(s, capacity, Join(2));
    assert s.shutdowns == map[1 := Draining, 2 := Draining];
  }

  /** Two Shutdown calls: one takes the last item, the other sees the queue empty and
      returns nil while that item has no reply. */
  lemma TwoShutdownsLeaveAnItem(capacity: nat) returns (s: State)
    requires capacity >= 1
    ensures Reachable(s, capacity) && 2 in s.returnedNil
    ensures PhaseOf(s, 2) == Some(Drained(1)) && s.enqueued == [0] && s.answered == [] && HeldBy(s, 1, 0)
  {
    s := TwoDrains(capacity);
    s := Next(s, capacity, DrainTake(1));
    s := Next(s, capacity, DrainEmpty(2));
    s := Next(s, capacity, ReturnNil(2));
  }

  /** Every drain has finished while the item is queued. */
  predicate Lost(s: State, item: Item)
  {
    item in s.queue && AllDrained(s)
  }

  /** A caller that passed the closed check can still send after the drain. */
  lemma ALateSendIsLost(capacity: nat) returns (s: State)
    requires capacity >= 1
    ensures Reachable(s, capacity) && 1 in s.returnedNil && Lost(s, 0)
  {
    s := ClosedBeforeSend(capacity);
    s := Next(s, capacity, Join(1));
    s := Next(s, capacity, DrainEmpty(1));
    s := Next(s, capacity, ReturnNil(1));
    s := Next(s, capacity, Send(0));
  }

  lemma ClosedBeforeSend(capacity: nat) returns (s: State)
    ensures Reachable(s, capacity)
    ensures s == State(capacity, [], Exited, true, true, {0}, 1, map[1 := Joining], {}, [], [], [], [], {0})
  {
    s := Beginning(capacity);
    s := Next(s, capacity, PassCheck);
    s := Next(s, capacity, Swap(1));
    s := Next(s, capacity, CloseDone(1));
    s := Next(s, capacity, WorkerExit);
    assert s.early == {0} && s.shutdowns == map[1 := Joining];
  }

  lemma LostStep(s: State, capacity: nat, item: Item, a: Action)
    requires Reachable(s, capacity) && Lost(s, item) && Step(s, a).Some? && !a.Swap?
    ensures Lost(Step(s, a).value, item)
  {
    ReachableInv(s, capacity);
    var c :| c in s.shutdowns;
    assert PhaseOk(s, s.shutdowns[c]);
  }

  lemma {:induction false} LostStaysLost(s: State, capacity: nat, item: Item, actions: seq<Action>)
    requires Reachable(s, capacity) && Lost(s, item) && Run(s, actions).Some?
    requires forall i :: 0 <= i < |actions| ==> !actions[i].Swap?
    ensures Lost(Run(s, actions).value, item) && item !in Run(s, actions).value.answered
    decreases |actions|
  {
    if actions == [] {
      ReachableInv(s, capacity);
      assert exists j :: 0 <= j < |s.queue| && s.queue[j] == item;
      ExactlyOnePlace(s, capacity, item);
    } else {
      LostStep(s, capacity, item, actions[0]);
      var t := Next(s, capacity, actions[0]);
      LostStaysLost(t, capacity, item, actions[1..]);
    }
  }

  ghost predicate AnsweredLater(s: State, item: Item)
  {
    exists actions :: AnsweredAfter(s, item, actions)
  }

  /** The item is answered after these steps, in which Shutdown is not called again. */
  ghost predicate AnsweredAfter(s: State, item: Item, actions: seq<Action>)
  {
    && (forall i :: 0 <= i < |actions| ==> !actions[i].Swap?)
    && Run(s, actions).Some? && item in Run(s, actions).value.answered
  }

  /** Once all calls have drained, an item gets its reply without another Shutdown call,
      now or ever, if and only if some drain ended after it was enqueued. */
  lemma LostExactly(s: State, capacity: nat, k: nat)
    requires Reachable(s, capacity) && AllDrained(s) && k < |s.enqueued|
    ensures AnsweredLater(s, s.enqueued[k]) <==> Seen(s, k)
  {
    AnsweredExactly(s, capacity, k);
    if Seen(s, k) {
      assert AnsweredAfter(s, s.enqueued[k], []);
    }
    if AnsweredLater(s, s.enqueued[k]) && !Seen(s, k) {
      var actions :| AnsweredAfter(s, s.enqueued[k], actions);
      LostStaysLost(s, capacity, s.enqueued[k], actions);
    }
  }

  /** One more call drains it: the lost item at the front of the queue is answered. */
  lemma AnotherShutdownRescues(s: State, capacity: nat, call: Call) returns (t: State)
    requires Reachable(s, capacity) && AllDrained(s) && s.queue != [] && call !in s.shutdowns
    ensures Reachable(t, capacity) && t.answered == s.answered + [s.queue[0]] && t.queue == s.queue[1..]
  {
    ReachableInv(s, capacity);
    var c :| c in s.shutdowns;
    assert PhaseOk(s, s.shutdowns[c]);
    t := Next(s, capacity, Swap(call));
    t := Next(t, capacity, Join(call));
    t := Next(t, capacity, DrainTake(call));
    t := Next(t, capacity, DrainReply(call));
  }

  // ----- nothing gets stuck -----

  predicate WorkerStep(a: Action)
  {
    a.WorkerTake? || a.WorkerReply?
  }

  predicate WorkerOnly(actions: seq<Action>)
  {
    forall i :: 0 <= i < |actions| ==> WorkerStep(actions[i])
  }

  lemma RunThen(s: State, a: Action, actions: seq<Action>)
    requires Step(s, a).Some?
    ensures Run(s, [a] + actions) == Run(Step(s, a).value, actions)
  {
    assert ([a] + actions)[1..] == actions;
  }

  lemma InvStep(s: State, a: Action)
    requires Inv(s) && Step(s, a).Some?
    ensures Inv(Step(s, a).value)
  {
    RunKeepsInv(s, [a]);
    RunThen(s, a, []);
    assert [a] + [] == [a];
  }

  /** While the worker lives no drain has begun, so what is taken is answered or handled. */
  lemma NothingHeld(s: State)
    requires Inv(s) && s.worker == Waiting && s.queue == []
    ensures forall i :: i in s.enqueued ==> i in s.answered
  {
    assert forall c :: c in s.shutdowns ==> PhaseOk(s, s.shutdowns[c]);
    assert forall i :: !Held(s, i);
    assert s.enqueued == s.taken;
  }

  /** The worker alone brings every queued item to its handler and answers it. */
  lemma {:induction false} WorkerDrains(s: State) returns (actions: seq<Action>, t: State)
    requires Inv(s) && !s.worker.Exited?
    ensures WorkerOnly(actions) && Run(s, actions) == Some(t)
    ensures t.enqueued == s.enqueued && t.queue == [] && t.worker == Waiting
    ensures forall i :: i in s.enqueued ==> i in t.answered
    ensures s.log <= t.log && forall i :: i in s.queue ==> Started(i) in t.log[|s.log|..]
    decreases |s.queue|, s.worker.Handling?
  {
    if s.worker.Handling? {
      InvStep(s, WorkerReply);
      var u := Step(s, WorkerReply).value;
      var rest;
      rest, t := WorkerDrains(u);
      actions := [WorkerReply] + rest;
      RunThen(s, WorkerReply, rest);
      assert forall i :: i in s.queue ==> Started(i) in t.log[|u.log|..] ==> Started(i) in t.log[|s.log|..];
    } else if s.queue == [] {
      actions, t := [], s;
      NothingHeld(s);
    } else {
      InvStep(s, WorkerTake);
      var u := Step(s, WorkerTake).value;
      var rest;
      rest, t := WorkerDrains(u);
      actions := [WorkerTake] + rest;
      RunThen(s, WorkerTake, rest);
      assert t.log[|s.log|] == u.log[|s.log|] == Started(s.queue[0]);
      forall i | i in s.queue ensures Started(i) in t.log[|s.log|..] {
        if i == s.queue[0] {
          assert t.log[|s.log|..][0] == Started(i);
        } else {
          assert i in u.queue && Started(i) in t.log[|u.log|..];
        }
      }
    }
  }

  /** From every reachable state with a living worker, its steps alone answer all that is
      enqueued, each queued item by its handler. */
  lemma QueuedIsHandled(s: State, capacity: nat) returns (actions: seq<Action>, t: State)
    requires Reachable(s, capacity) && !s.worker.Exited?
    ensures WorkerOnly(actions) && Run(s, actions) == Some(t)
    ensures forall i :: i in s.enqueued ==> i in t.answered
    ensures s.log <= t.log && forall i :: i in s.queue ==> Started(i) in t.log[|s.log|..]
  {
    ReachableInv(s, capacity);
    actions, t := WorkerDrains(s);
  }

  /** A call gets into the queue exactly while fewer than capacity items wait, and is
      refused for lack of room exactly when that many do, unless done is closed. */
  lemma RoomDecides(s: State, capacity: nat, item: Item)
    requires Reachable(s, capacity) && item in s.pending
    ensures Step(s, Send(item)).Some? <==> |s.enqueued| - |s.taken| < capacity
    ensures Step(s, GiveUp(item, Backpressure)).Some? <==> |s.enqueued| - |s.taken| >= capacity && !s.done
    ensures Step(s, GiveUp(item, DispatcherClosed)).Some? <==> s.done
    ensures Step(s, GiveUp(item, ContextDone)).Some?
  {
    ReachableInv(s, capacity);
    CapacityStays(s, capacity);
  }

  lemma CapacityStays(s: State, capacity: nat)
    requires Reachable(s, capacity)
    ensures s.capacity == capacity
  {
    var actions :| Run(Init(capacity), actions) == Some(s);
    RunKeepsCapacity(Init(capacity), actions);
  }

  lemma {:induction false} RunKeepsCapacity(s: State, actions: seq<Action>)
    requires Run(s, actions).Some?
    ensures Run(s, actions).value.capacity == s.capacity
    decreases |actions|
  {
    if actions != [] { RunKeepsCapacity(Step(s, actions[0]).value, actions[1..]); }
  }

  /** While done is open on a closed dispatcher, some call is about to close it. */
  ghost predicate SomeoneCloses(s: State)
  {
    s.closed && !s.done ==> exists c :: PhaseOf(s, c) == Some(Swapped)
  }

  lemma StepKeepsCloser(s: State, a: Action)
    requires Inv(s) && SomeoneCloses(s) && Step(s, a).Some?
    ensures SomeoneCloses(Step(s, a).value)
  {
    var t := Step(s, a).value;
    if t.closed && !t.done {
      if !s.closed {
        assert PhaseOf(t, a.call) == Some(Swapped);
      } else {
        var c :| PhaseOf(s, c) == Some(Swapped);
        assert PhaseOf(t, c) == Some(Swapped);
      }
    }
  }

  lemma {:induction false} RunKeepsCloser(s: State, actions: seq<Action>)
    requires Inv(s) && SomeoneCloses(s) && Run(s, actions).Some?
    ensures SomeoneCloses(Run(s, actions).value)
    decreases |actions|
  {
    if actions != [] {
      StepKeepsCloser(s, actions[0]);
      InvStep(s, actions[0]);
      RunKeepsCloser(Step(s, actions[0]).value, actions[1..]);
    }
  }

  /** A step of the worker or of a Shutdown call under way; no caller is needed. */
  predicate Inner(a: Action)
  {
    !a.PassCheck? && !a.Send? && !a.GiveUp? && !a.Swap?
  }

  /** Steps of that kind lead from s to t. */
  ghost predicate Leads(s: State, t: State)
  {
    exists actions :: Run(s, actions) == Some(t) && forall i :: 0 <= i < |actions| ==> Inner(actions[i])
  }

  lemma LeadsOn(s: State, a: Action, t: State)
    requires Inner(a) && Step(s, a).Some? && Leads(Step(s, a).value, t)
    ensures Leads(s, t)
  {
    var actions :| Run(Step(s, a).value, actions) == Some(t) && forall i :: 0 <= i < |actions| ==> Inner(actions[i]);
    RunThen(s, a, actions);
    var longer := [a] + actions;
    assert forall i :: 0 <= i < |longer| ==> Inner(longer[i]);
  }

  lemma LeadsHere(s: State)
    ensures Leads(s, s)
  {
    assert Run(s, []) == Some(s);
  }

  /** What a call needs on its way to nil: done closed, the worker gone, the queue empty. */
  function Distance(s: State, call: Call): nat
  {
    2 * |s.queue| + (if s.done then 0 else 2) + (match s.worker case Exited => 0 case Waiting => 1 case Handling(_) => 2)
    + (match PhaseOf(s, call)
       case None => 0
       case Some(Swapped) => 4
       case Some(Joining) => 3
       case Some(Draining) => 1
       case Some(Holding(_)) => 2
       case Some(Drained(_)) => 0)
  }

  /** The next such step for this call, whoever makes it. */
  lemma NextInner(s: State, call: Call) returns (a: Action)
    requires Inv(s) && SomeoneCloses(s) && call in s.shutdowns && !s.shutdowns[call].Drained?
    ensures Inner(a) && Step(s, a).Some? && call in Step(s, a).value.shutdowns
    ensures Distance(Step(s, a).value, call) < Distance(s, call)
  {
    assert PhaseOk(s, s.shutdowns[call]);
    if !s.done {
      var c :| PhaseOf(s, c) == Some(Swapped);
      a := CloseDone(c);
    } else if s.worker.Handling? {
      a := WorkerReply;
    } else if s.worker.Waiting? {
      a := WorkerExit;
    } else if s.shutdowns[call].Joining? {
      a := Join(call);
    } else if s.shutdowns[call].Holding? {
      a := DrainReply(call);
    } else {
      a := if s.queue == [] then DrainEmpty(call) else DrainTake(call);
    }
  }

  lemma {:induction false} LeadsToNil(s: State, call: Call) returns (t: State)
    requires Inv(s) && SomeoneCloses(s) && call in s.shutdowns
    ensures Leads(s, t) && call in t.returnedNil
    decreases Distance(s, call)
  {
    if s.shutdowns[call].Drained? {
      t := Step(s, ReturnNil(call)).value;
      LeadsHere(t);
      LeadsOn(s, ReturnNil(call), t);
    } else {
      var a := NextInner(s, call);
      InvStep(s, a);
      StepKeepsCloser(s, a);
      t := LeadsToNil(Step(s, a).value, call);
      LeadsOn(s, a, t);
    }
  }

  /** From every reachable state every Shutdown call can return nil, by steps of the worker
      and of Shutdown calls alone. */
  lemma ShutdownCanReturn(s: State, capacity: nat, call: Call) returns (t: State)
    requires Reachable(s, capacity) && call in s.shutdowns
    ensures Leads(s, t) && call in t.returnedNil
  {
    ReachableInv(s, capacity);
    var actions :| Run(Init(capacity), actions) == Some(s);
    RunKeepsCloser(Init(capacity), actions);
    t := LeadsToNil(s, call);
  }
}
