/** One port under concurrent posts, Start and Close (internal/ipc/router.go:136-202):
    the steps are the critical sections and the calls of the handlers between them. */
module MessagePortRace {
  import opened Sequences

  type Id = nat

  /** Messages by number, in the order they were posted. `transit`: past the poster's
      check, before the receiver's lock. `batch`: taken out of the queue by Start and
      not handed over yet. `direct`: past the lock on a started port, not handed over
      yet. */
  datatype State = State(
    started: bool, closed: bool, next: Id,
    transit: multiset<Id>, queue: seq<Id>, batch: seq<Id>, direct: multiset<Id>,
    delivered: seq<Id>, dropped: multiset<Id>,
    queued: seq<Id>,   // all that ever entered the queue, in order
    arrived: seq<Id>)  // all that got past the lock of the open port, in order

  datatype Move =
    | Post
    | Arrive(id: Id)
    | TakeQueue
    | HandBatch
    | HandDirect(id: Id)
    | Close

  function Init(): State
  {
    State(false, false, 0, multiset{}, [], [], multiset{}, [], multiset{}, [], [])
  }

  predicate Enabled(s: State, m: Move)
  {
    match m
    case Arrive(id) => id in s.transit
    case HandBatch => s.batch != []
    case HandDirect(id) => id in s.direct
    case _ => true
  }

  function Arrived(s: State, id: Id): State
    requires id in s.transit
  {
    var a := s.(transit := s.transit - multiset{id});
    if s.closed then a.(dropped := s.dropped + multiset{id})
    else if !s.started then a.(queue := s.queue + [id], queued := s.queued + [id], arrived := s.arrived + [id])
    else a.(direct := s.direct + multiset{id}, arrived := s.arrived + [id])
  }

  function Next(s: State, m: Move): State
    requires Enabled(s, m)
  {
    match m
    case Post => s.(transit := s.transit + multiset{s.next}, next := s.next + 1)
    case Arrive(id) => Arrived(s, id)
    case TakeQueue => if s.closed || s.started then s else s.(started := true, batch := s.queue, queue := [])
    case HandBatch => s.(batch := s.batch[1..], delivered := s.delivered + [s.batch[0]])
    case HandDirect(id) => s.(direct := s.direct - multiset{id}, delivered := s.delivered + [id])
    case Close => s.(closed := true, queue := [], dropped := s.dropped + multiset(s.queue))
  }

  ghost predicate Reaches(s: State, moves: seq<Move>, t: State)
    decreases |moves|
  {
    if moves == [] then s == t
    else Enabled(s, moves[0]) && Reaches(Next(s, moves[0]), moves[1..], t)
  }

  /** How often a message is somewhere. */
  function Times(s: State, id: Id): nat
  {
    s.transit[id] + multiset(s.queue)[id] + multiset(s.batch)[id] + s.direct[id] + multiset(s.delivered)[id] + s.dropped[id]
  }

  /** Every posted message is in exactly one place, and no other is anywhere. */
  ghost predicate ExactlyOnce(s: State)
  {
    forall id: Id :: Times(s, id) == if id < s.next then 1 else 0
  }

  /** A closed or started port queues nothing; before Start nothing is handed over; until
      Close the queue holds all that was ever queued; Start's batch is the end of it. */
  predicate Ordered(s: State)
  {
    && (s.closed || s.started ==> s.queue == [])
    && (!s.started ==> s.batch == [] && s.direct == multiset{} && s.delivered == [])
    && (!s.started && !s.closed ==> s.queue == s.queued)
    && |s.batch| <= |s.queued|
    && (s.batch != [] ==> s.queued[|s.queued| - |s.batch|..] == s.batch)
  }

  lemma Appended(q: seq<Id>, x: Id, id: Id)
    ensures multiset(q + [x])[id] == multiset(q)[id] + if x == id then 1 else 0
  {
  }

  lemma ArriveMoves(s: State, x: Id, id: Id)
    requires x in s.transit
    ensures Times(Arrived(s, x), id) == Times(s, id)
  {
  }

  lemma HandMoves(s: State, m: Move, id: Id)
    requires Enabled(s, m) && (m.HandBatch? || m.HandDirect?)
    ensures Times(Next(s, m), id) == Times(s, id)
  {
    var x := if m.HandBatch? then s.batch[0] else m.id;
    Appended(s.delivered, x, id);
    if m.HandBatch? {
      assert s.batch == [x] + s.batch[1..];
      assert multiset(s.batch)[id] == multiset(s.batch[1..])[id] + if x == id then 1 else 0;
    }
  }

  lemma StepMoves(s: State, m: Move, id: Id)
    requires Enabled(s, m) && Ordered(s)
    ensures Times(Next(s, m), id) == Times(s, id) + if m.Post? && id == s.next then 1 else 0
  {
    match m
    case Arrive(x) => ArriveMoves(s, x, id);
    case HandBatch => HandMoves(s, m, id);
    case HandDirect(_) => HandMoves(s, m, id);
    case _ =>
  }

  lemma StepKeepsOnce(s: State, m: Move)
    requires Enabled(s, m) && ExactlyOnce(s) && Ordered(s)
    ensures ExactlyOnce(Next(s, m))
  {
    forall id: Id ensures Times(Next(s, m), id) == if id < Next(s, m).next then 1 else 0 {
      StepMoves(s, m, id);
    }
  }

  lemma StepKeepsOrder(s: State, m: Move)
    requires Enabled(s, m) && Ordered(s)
    ensures Ordered(Next(s, m))
  {
  }

  /** In every interleaving. */
  lemma {:induction false} EveryInterleaving(s: State, moves: seq<Move>, t: State)
    requires ExactlyOnce(s) && Ordered(s) && Reaches(s, moves, t)
    ensures ExactlyOnce(t) && Ordered(t)
    decreases |moves|
  {
    if moves != [] {
      StepKeepsOnce(s, moves[0]);
      StepKeepsOrder(s, moves[0]);
      EveryInterleaving(Next(s, moves[0]), moves[1..], t);
    }
  }

  lemma EveryReachableState(moves: seq<Move>, t: State)
    requires Reaches(Init(), moves, t)
    ensures ExactlyOnce(t) && Ordered(t)
  {
    EveryInterleaving(Init(), moves, t);
  }

  /** What Close cannot stop: a message past the lock is still handed over, and nothing
      is dropped after being taken. */
  lemma {:induction false} TakenIsDelivered(s: State, moves: seq<Move>, t: State, id: Id)
    requires Reaches(s, moves, t) && ExactlyOnce(s) && Ordered(s)
    requires id in s.batch || id in s.direct || id in s.delivered
    ensures id in t.batch || id in t.direct || id in t.delivered
    ensures id !in t.dropped && id !in t.queue
    decreases |moves|
  {
    OnePlace(s, id);
    if moves != [] {
      StepKeepsOnce(s, moves[0]);
      StepKeepsOrder(s, moves[0]);
      StaysTaken(s, moves[0], id);
      TakenIsDelivered(Next(s, moves[0]), moves[1..], t, id);
    }
  }

  lemma OnePlace(s: State, id: Id)
    requires ExactlyOnce(s) && (id in s.batch || id in s.direct || id in s.delivered)
    ensures id !in s.dropped && id !in s.queue && id !in s.transit
  {
    assert multiset(s.batch)[id] + s.direct[id] + multiset(s.delivered)[id] >= 1;
    assert Times(s, id) <= 1;
  }

  lemma StaysTaken(s: State, m: Move, id: Id)
    requires Enabled(s, m) && Ordered(s) && (id in s.batch || id in s.direct || id in s.delivered)
    ensures var t := Next(s, m); id in t.batch || id in t.direct || id in t.delivered
  {
  }

  /** When every message has been handed over or dropped, delivered and dropped together
      are exactly the posted messages. */
  lemma NothingLeftBehind(moves: seq<Move>, t: State, id: Id)
    requires Reaches(Init(), moves, t)
    requires t.transit == multiset{} && t.queue == [] && t.batch == [] && t.direct == multiset{}
    ensures multiset(t.delivered)[id] + t.dropped[id] == if id < t.next then 1 else 0
  {
    EveryReachableState(moves, t);
    assert Times(t, id) == multiset(t.delivered)[id] + t.dropped[id];
  }

  // ----- when order is kept -----

  /** Arrived messages are distinct and no longer in transit. */
  ghost predicate Fresh(s: State)
  {
    && Distinct(s.arrived)
    && (forall x :: x in s.arrived ==> x < s.next && x !in s.transit)
  }

  /** The queued messages arrived first; a started port has handed over all the others
      it does not hold. */
  predicate Counted(s: State)
  {
    && |s.batch| <= |s.queued|
    && s.queued <= s.arrived && (!s.started ==> s.queued == s.arrived)
    && (s.started ==> |s.arrived| == |s.delivered| + |s.batch| + |s.direct|)
  }

  /** On a started port every arrived message is in the batch, past the lock or delivered. */
  ghost predicate Placed(s: State)
  {
    && (s.started ==> forall x :: x in s.arrived ==> x in s.batch || x in s.direct || x in s.delivered)
    && (forall x :: x in s.direct || x in s.delivered ==> x in s.arrived)
    && (forall x :: x in s.direct ==> x !in s.queued)
  }

  /** What left Start's batch. */
  function Handed(s: State): seq<Id>
    requires |s.batch| <= |s.queued|
  {
    s.queued[..|s.queued| - |s.batch|]
  }

  predicate HandedAreDelivered(s: State)
    requires |s.batch| <= |s.queued|
  {
    s.started ==> forall x :: x in Handed(s) ==> x in s.delivered
  }

  ghost predicate Sound(s: State)
  {
    ExactlyOnce(s) && Ordered(s) && Fresh(s) && Counted(s) && Placed(s) && HandedAreDelivered(s)
  }

  lemma OnePlaceOnly(s: State, x: Id)
    requires ExactlyOnce(s)
    ensures !(x in s.batch && x in s.delivered) && !(x in s.batch && x in s.direct) && !(x in s.direct && x in s.delivered)
    ensures x in s.transit ==> x < s.next && s.transit[x] == 1
  {
    assert Times(s, x) <= 1;
  }

  lemma ArriveKeepsFresh(s: State, id: Id)
    requires ExactlyOnce(s) && Fresh(s) && id in s.transit
    ensures Fresh(Arrived(s, id))
  {
    OnePlaceOnly(s, id);
  }

  lemma ArriveKeepsPlaced(s: State, id: Id)
    requires Sound(s) && id in s.transit
    ensures Placed(Arrived(s, id))
  {
    var t := Arrived(s, id);
    if !s.closed {
      forall x ensures x in t.arrived <==> x in s.arrived || x == id { assert t.arrived == s.arrived + [id]; }
      assert forall x :: x in t.direct ==> x in s.direct || x == id;
      assert forall x :: x in s.queued ==> x in s.arrived;
    }
  }

  lemma ArriveKeepsSound(s: State, id: Id)
    requires Sound(s) && id in s.transit
    ensures Sound(Arrived(s, id))
  {
    StepKeepsOnce(s, Arrive(id));
    StepKeepsOrder(s, Arrive(id));
    ArriveKeepsFresh(s, id);
    ArriveKeepsPlaced(s, id);
    ArriveKeepsCounted(s, id);
  }

  lemma ArriveKeepsCounted(s: State, id: Id)
    requires Ordered(s) && Counted(s) && HandedAreDelivered(s) && id in s.transit
    ensures Counted(Arrived(s, id)) && HandedAreDelivered(Arrived(s, id))
  {
    var t := Arrived(s, id);
    if s.started {
      assert t.queued == s.queued && t.batch == s.batch && t.delivered == s.delivered;
      assert t.closed || t.arrived == s.arrived + [id];
    } else if !s.closed {
      assert t.queued == t.arrived;
    }
  }

  /** The message handed over by this move. */
  function HandedBy(s: State, m: Move): Id
    requires Enabled(s, m) && (m.HandBatch? || m.HandDirect?)
  {
    if m.HandBatch? then s.batch[0] else m.id
  }

  lemma DeliveredMore(delivered: seq<Id>, x: Id, y: Id)
    ensures y in delivered + [x] <==> y in delivered || y == x
  {
  }

  lemma BatchKeepsPlaced(s: State)
    requires Sound(s) && s.batch != []
    ensures Placed(Next(s, HandBatch))
  {
    var t, x := Next(s, HandBatch), s.batch[0];
    BatchFront(s);
    forall y ensures y in t.delivered <==> y in s.delivered || y == x { DeliveredMore(s.delivered, x, y); }
    forall y | y in s.batch ensures y == x || y in t.batch { assert s.batch == [x] + t.batch; }
  }

  lemma DirectKeepsPlaced(s: State, id: Id)
    requires Sound(s) && id in s.direct
    ensures Placed(Next(s, HandDirect(id)))
  {
    var t := Next(s, HandDirect(id));
    forall y ensures y in t.delivered <==> y in s.delivered || y == id { DeliveredMore(s.delivered, id, y); }
    assert forall y :: y in s.direct ==> y == id || y in t.direct;
  }

  lemma BatchFront(s: State)
    requires Ordered(s) && Counted(s) && s.batch != []
    ensures var n := |s.queued| - |s.batch|;
            n < |s.queued| && s.queued[n] == s.batch[0] == s.arrived[n] && s.batch[0] in s.queued && s.batch[0] in s.arrived
            && Handed(Next(s, HandBatch)) == Handed(s) + [s.batch[0]]
  {
    var n := |s.queued| - |s.batch|;
    assert s.queued[n..] == s.batch && s.queued[n..][0] == s.queued[n];
    assert s.queued[..n + 1] == s.queued[..n] + [s.queued[n]];
  }

  lemma HandKeepsSound(s: State, m: Move)
    requires Sound(s) && Enabled(s, m) && (m.HandBatch? || m.HandDirect?)
    ensures Sound(Next(s, m))
  {
    StepKeepsOnce(s, m);
    StepKeepsOrder(s, m);
    if m.HandBatch? { BatchKeepsPlaced(s); } else { DirectKeepsPlaced(s, m.id); }
    HandKeepsHanded(s, m);
  }

  lemma HandKeepsHanded(s: State, m: Move)
    requires Ordered(s) && Counted(s) && HandedAreDelivered(s) && Enabled(s, m) && (m.HandBatch? || m.HandDirect?)
    ensures Counted(Next(s, m)) && HandedAreDelivered(Next(s, m))
  {
    var t, x := Next(s, m), HandedBy(s, m);
    forall y | y in s.delivered || y == x ensures y in t.delivered { assert t.delivered == s.delivered + [x]; }
    if m.HandBatch? { BatchFront(s); }
  }

  lemma StepKeepsSound(s: State, m: Move)
    requires Sound(s) && Enabled(s, m)
    ensures Sound(Next(s, m))
  {
    match m
    case Arrive(id) => ArriveKeepsSound(s, id);
    case HandBatch => HandKeepsSound(s, m);
    case HandDirect(_) => HandKeepsSound(s, m);
    case _ => OtherKeepsSound(s, m);
  }

  lemma OtherKeepsSound(s: State, m: Move)
    requires Sound(s) && Enabled(s, m) && (m.Post? || m.TakeQueue? || m.Close?)
    ensures Sound(Next(s, m))
  {
    StepKeepsOnce(s, m);
    StepKeepsOrder(s, m);
    var t := Next(s, m);
    assert t.arrived == s.arrived && t.queued == s.queued && t.delivered == s.delivered && t.direct == s.direct;
    if m.TakeQueue? && !s.closed && !s.started {
      assert t.batch == t.queued && Handed(t) == [];
    } else {
      assert t.batch == s.batch && t.started == s.started;
    }
  }

  /** What Start took is delivered first and in queue order. */
  predicate InOrder(s: State)
  {
    s.started ==>
      (var n := |s.queued| - |s.batch|;
       && 0 <= n <= |s.delivered|
       && s.delivered[..n] == s.queued[..n]
       && (s.batch != [] ==> |s.delivered| == n))
  }

  /** A message past the lock is handed over while Start still holds its batch. */
  predicate Overtakes(s: State, m: Move)
  {
    m.HandDirect? && s.batch != []
  }

  lemma BatchStep(s: State)
    requires Sound(s) && s.batch != []
    ensures InOrder(Next(s, HandBatch)) <==> InOrder(s)
  {
    var t, n, x := Next(s, HandBatch), |s.queued| - |s.batch|, s.batch[0];
    BatchFront(s);
    OnePlaceOnly(s, x);
    if n < |s.delivered| { assert s.delivered[n] in s.delivered; }
    if n <= |s.delivered| {
      assert t.delivered[..n + 1] == t.delivered[..n] + [t.delivered[n]];
      assert t.delivered[..n] == s.delivered[..n];
    }
  }

  lemma DirectStep(s: State, id: Id)
    requires Sound(s) && id in s.direct
    ensures InOrder(Next(s, HandDirect(id))) <==> InOrder(s) && s.batch == []
  {
    var t, n := Next(s, HandDirect(id)), |s.queued| - |s.batch|;
    if n <= |s.delivered| {
      assert t.delivered[..n] == s.delivered[..n];
    } else if n == |t.delivered| {
      assert t.delivered[n - 1] == id && s.queued[n - 1] in s.queued;
      assert t.delivered[..n][n - 1] != s.queued[..n][n - 1];
    }
  }

  lemma OtherOrder(s: State, m: Move)
    requires Sound(s) && Enabled(s, m) && !m.HandBatch? && !m.HandDirect?
    ensures InOrder(Next(s, m)) <==> InOrder(s)
  {
  }

  lemma OrderStep(s: State, m: Move)
    requires Sound(s) && Enabled(s, m)
    ensures InOrder(Next(s, m)) <==> InOrder(s) && !Overtakes(s, m)
  {
    if m.HandBatch? {
      BatchStep(s);
    } else if m.HandDirect? {
      DirectStep(s, m.id);
    } else {
      OtherOrder(s, m);
    }
  }

  predicate NeverOvertakes(s: State, moves: seq<Move>)
    decreases |moves|
  {
    moves == [] || (Enabled(s, moves[0]) && !Overtakes(s, moves[0]) && NeverOvertakes(Next(s, moves[0]), moves[1..]))
  }

  lemma {:induction false} OrderOfRun(s: State, moves: seq<Move>, t: State)
    requires Sound(s) && Reaches(s, moves, t)
    ensures InOrder(t) <==> InOrder(s) && NeverOvertakes(s, moves)
    decreases |moves|
  {
    if moves != [] {
      OrderStep(s, moves[0]);
      StepKeepsSound(s, moves[0]);
      OrderOfRun(Next(s, moves[0]), moves[1..], t);
    }
  }

  /** In every interleaving: what Start took is delivered first and in queue order if
      and only if no other message was handed over while Start held its batch. */
  lemma QueueOrderExactly(moves: seq<Move>, t: State)
    requires Reaches(Init(), moves, t)
    ensures InOrder(t) <==> NeverOvertakes(Init(), moves)
  {
    OrderOfRun(Init(), moves, t);
  }

  /** Messages past the lock are handed over in turn: not while Start holds its batch,
      and not before one that arrived earlier. */
  predicate InTurn(s: State, m: Move)
  {
    m.HandDirect? ==>
      && s.batch == []
      && exists j :: 0 <= j < |s.arrived| && s.arrived[j] == m.id && forall i :: 0 <= i < j ==> s.arrived[i] !in s.direct
  }

  /** The front of the batch is the oldest message not delivered yet. */
  lemma BatchIsNext(s: State)
    requires Sound(s) && s.batch != [] && s.delivered <= s.arrived
    ensures |s.delivered| == |s.queued| - |s.batch| && s.arrived[|s.delivered|] == s.batch[0]
  {
    var n, d := |s.queued| - |s.batch|, |s.delivered|;
    BatchFront(s);
    OnePlaceOnly(s, s.batch[0]);
    if d < n { NotDelivered(s, d); }
  }

  /** What is past the delivered prefix has not been delivered. */
  lemma NotDelivered(s: State, k: nat)
    requires Fresh(s) && s.delivered <= s.arrived && |s.delivered| <= k < |s.arrived|
    ensures s.arrived[k] !in s.delivered
    ensures Counted(s) && k < |s.queued| - |s.batch| ==> s.arrived[k] in Handed(s)
  {
    forall i | 0 <= i < |s.delivered| ensures s.delivered[i] != s.arrived[k] { assert s.delivered[i] == s.arrived[i]; }
    if Counted(s) && k < |s.queued| - |s.batch| { assert Handed(s)[k] == s.queued[k] == s.arrived[k]; }
  }

  lemma TurnStep(s: State, id: Id)
    requires Sound(s) && id in s.direct && s.delivered <= s.arrived
    ensures s.delivered + [id] <= s.arrived <==> InTurn(s, HandDirect(id))
  {
    var d := |s.delivered|;
    assert d < |s.arrived| && (s.delivered + [id])[d] == id;
    OnePlaceOnly(s, id);
    if s.batch != [] {
      BatchIsNext(s);
      OnePlaceOnly(s, s.batch[0]);
    } else {
      forall i | 0 <= i < d ensures s.arrived[i] !in s.direct {
        assert s.delivered[i] == s.arrived[i];
        OnePlaceOnly(s, s.arrived[i]);
      }
      NotDelivered(s, d);
      assert s.arrived[d] in s.arrived && s.arrived[d] in s.direct;
    }
  }

  predicate AllInTurn(s: State, moves: seq<Move>)
    decreases |moves|
  {
    moves == [] || (Enabled(s, moves[0]) && InTurn(s, moves[0]) && AllInTurn(Next(s, moves[0]), moves[1..]))
  }

  lemma HandInTurn(s: State, m: Move)
    requires Sound(s) && Enabled(s, m) && (m.HandBatch? || m.HandDirect?)
    ensures s.delivered + [HandedBy(s, m)] <= s.arrived <==> s.delivered <= s.arrived && InTurn(s, m)
  {
    var longer := s.delivered + [HandedBy(s, m)];
    assert s.delivered <= longer;
    if s.delivered <= s.arrived {
      if m.HandBatch? { BatchIsNext(s); } else { TurnStep(s, m.id); }
    }
  }

  lemma ArrivalStep(s: State, m: Move)
    requires Sound(s) && Enabled(s, m)
    ensures Next(s, m).delivered <= Next(s, m).arrived <==> s.delivered <= s.arrived && InTurn(s, m)
  {
    if m.HandBatch? || m.HandDirect? {
      HandInTurn(s, m);
    } else if m.Arrive? {
      assert |s.delivered| <= |s.arrived|;
      PrefixOfLonger(s.delivered, s.arrived, m.id);
    }
  }

  lemma PrefixOfLonger(a: seq<Id>, b: seq<Id>, id: Id)
    requires |a| <= |b|
    ensures a <= b + [id] <==> a <= b
  {
  }

  lemma {:induction false} ArrivalOfRun(s: State, moves: seq<Move>, t: State)
    requires Sound(s) && Reaches(s, moves, t)
    ensures t.delivered <= t.arrived <==> s.delivered <= s.arrived && AllInTurn(s, moves)
    decreases |moves|
  {
    if moves != [] {
      StepKeepsSound(s, moves[0]);
      ArrivalStep(s, moves[0]);
      ArrivalOfRun(Next(s, moves[0]), moves[1..], t);
    }
  }

  /** In every interleaving messages are delivered in the order in which they got past
      the lock if and only if every message was handed over in turn. */
  lemma ArrivalOrderExactly(moves: seq<Move>, t: State)
    requires Reaches(Init(), moves, t)
    ensures t.delivered <= t.arrived <==> AllInTurn(Init(), moves)
  {
    ArrivalOfRun(Init(), moves, t);
  }

  /** Message 0 is queued and Start has taken it. */
  lemma QueuedThenStarted(s: State)
    requires s == State(true, false, 1, multiset{}, [], [0], multiset{}, [], multiset{}, [0], [0])
    ensures Next(Next(Next(Init(), Post), Arrive(0)), TakeQueue) == s
  {
  }

  /** Message 1 arrives while Start still holds message 0, and is handed over first. */
  lemma OvertakenThere(s: State, t: State)
    requires s == State(true, false, 1, multiset{}, [], [0], multiset{}, [], multiset{}, [0], [0])
    requires t == State(true, false, 2, multiset{}, [], [], multiset{}, [1, 0], multiset{}, [0], [0, 1])
    ensures Next(Next(Next(Next(s, Post), Arrive(1)), HandDirect(1)), HandBatch) == t
  {
  }

  lemma {:induction false} ReachesAll(s: State, a: seq<Move>, t: State, b: seq<Move>, u: State)
    requires Reaches(s, a, t) && Reaches(t, b, u)
    ensures Reaches(s, a + b, u)
    decreases |a|
  {
    if a == [] {
      assert a + b == b;
    } else {
      assert (a + b)[1..] == a[1..] + b;
      ReachesAll(Next(s, a[0]), a[1..], t, b, u);
    }
  }

  /** Order across the two ways is not kept: a message posted while Start hands its
      batch over can overtake a queued one. */
  lemma BatchCanBeOvertaken() returns (moves: seq<Move>, t: State)
    ensures Reaches(Init(), moves, t) && t.queued == [0] && t.delivered == [1, 0]
  {
    var s := State(true, false, 1, multiset{}, [], [0], multiset{}, [], multiset{}, [0], [0]);
    t := State(true, false, 2, multiset{}, [], [], multiset{}, [1, 0], multiset{}, [0], [0, 1]);
    QueuedThenStarted(s);
    OvertakenThere(s, t);
    Three(Init(), Post, Arrive(0), TakeQueue, s);
    var u := Next(Next(Next(s, Post), Arrive(1)), HandDirect(1));
    Three(s, Post, Arrive(1), HandDirect(1), u);
    assert Reaches(u, [HandBatch], t);
    ReachesAll(s, [Post, Arrive(1), HandDirect(1)], u, [HandBatch], t);
    ReachesAll(Init(), [Post, Arrive(0), TakeQueue], s, [Post, Arrive(1), HandDirect(1)] + [HandBatch], t);
    moves := [Post, Arrive(0), TakeQueue] + ([Post, Arrive(1), HandDirect(1)] + [HandBatch]);
  }

  lemma Three(s: State, a: Move, b: Move, c: Move, t: State)
    requires Enabled(s, a) && Enabled(Next(s, a), b) && Enabled(Next(Next(s, a), b), c)
    requires t == Next(Next(Next(s, a), b), c)
    ensures Reaches(s, [a, b, c], t)
  {
    assert [a, b, c][1..] == [b, c] && [b, c][1..] == [c];
    assert Reaches(Next(Next(s, a), b), [c], t);
    assert Reaches(Next(s, a), [b, c], t);
  }
}
