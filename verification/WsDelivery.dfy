/** What each WebSocket client's queue receives, over every interleaving of the hub. */
module WsDelivery {
  import opened WsRooms
  import opened WsHub

  /** Everything ever put into c's queue, as positions in the dispatch order: what its writer took, then what waits. */
  function Received(m: Mail, c: Id): seq<nat>
    requires c in m.taken && c in m.queue
  {
    m.taken[c] + m.queue[c]
  }

  ghost predicate Increasing(s: seq<nat>) {
    forall i, j :: 0 <= i < j < |s| ==> s[i] < s[j]
  }

  /** c's share: in dispatch order, only what was meant for it, never more waiting than the capacity. */
  ghost predicate QueueOK(capacity: nat, m: Mail, c: Id) {
    && c in m.taken && c in m.queue && |m.targets| == |m.log|
    && |m.queue[c]| <= capacity
    && Increasing(Received(m, c))
    && forall p :: p in Received(m, c) ==> p < |m.log| && c in m.targets[p]
  }

  /** A dropped message was meant for its client, was not delivered, and found the queue full. */
  ghost predicate MissOK(capacity: nat, m: Mail, c: Id, p: nat) {
    && (c, p) in m.missed
    && p < |m.log| == |m.targets| && c in m.targets[p]
    && c in m.taken && c in m.queue && p !in Received(m, c)
    && m.missed[(c, p)] == capacity
  }

  predicate Outstanding(w: World, c: Id, p: nat) {
    w.loop.Sending? && w.loop.position == p && c in w.loop.rest
  }

  /** Message p has reached c, was dropped for a full queue, or is still being sent. */
  ghost predicate Served(w: World, c: Id, p: nat)
    requires c in w.mail.taken && c in w.mail.queue
  {
    p in Received(w.mail, c) || (c, p) in w.mail.missed || Outstanding(w, c, p) || w.mail.sentToClosed
  }

  /** The part of the hub's safety that deliveries rely on. */
  ghost predicate Shape(w: World) {
    && w.phase.Keys == w.mail.queue.Keys == w.mail.taken.Keys
    && |w.mail.targets| == |w.mail.log|
    && (w.loop.Sending? ==> w.loop.position + 1 == |w.mail.log| && w.loop.rest <= w.mail.targets[w.loop.position])
  }

  lemma ShapeOfSafe(w: World)
    requires Safe(w)
    ensures Shape(w)
  {
  }

  /** The message the loop has received and not yet dispatched. */
  function InLoop(w: World): seq<Envelope> { if w.loop.Received? then [w.loop.env] else [] }

  ghost predicate MailOK(capacity: nat, w: World) {
    && Shape(w)
    && (forall c :: c in w.phase ==> QueueOK(capacity, w.mail, c))
    && (forall c, p :: (c, p) in w.mail.missed ==> MissOK(capacity, w.mail, c, p))
    && (forall p, c :: 0 <= p < |w.mail.log| && c in w.mail.targets[p] ==> c in w.phase)
    && (forall p, c :: 0 <= p < |w.mail.log| && c in w.mail.targets[p] ==> Served(w, c, p))
    && (forall c, p :: Outstanding(w, c, p) ==> c in w.phase && NotYet(w.mail, c, p))
    && w.mail.sent == w.mail.log + InLoop(w) + w.mail.pending && |w.mail.pending| <= BROADCAST_BUFFER
  }

  /** Position p is still to come for c. */
  ghost predicate NotYet(m: Mail, c: Id, p: nat) {
    && c in m.taken && c in m.queue && (c, p) !in m.missed
    && forall q :: q in Received(m, c) ==> q < p
  }

  // ----- Every step keeps it -----

  /** Enqueueing a position still to come keeps the queue in order. */
  lemma QueueGrows(capacity: nat, m: Mail, m': Mail, c: Id, p: nat)
    requires QueueOK(capacity, m, c) && NotYet(m, c, p) && p < |m.log| && c in m.targets[p] && |m.queue[c]| < capacity
    requires m' == m.(queue := m.queue[c := m.queue[c] + [p]])
    ensures QueueOK(capacity, m', c) && Received(m', c) == Received(m, c) + [p]
  {
    assert Received(m', c) == Received(m, c) + [p];
    forall i, j | 0 <= i < j < |Received(m', c)| ensures Received(m', c)[i] < Received(m', c)[j] {
      assert Received(m, c)[i] in Received(m, c);
    }
  }

  /** A send that finds room. */
  predicate Sends(capacity: nat, w: World, c: Id) {
    Enabled(w, SendTo(c)) && c !in w.index.closed && c in w.mail.queue && |w.mail.queue[c]| < capacity
  }

  lemma QueuedQueues(capacity: nat, w: World, c: Id)
    requires MailOK(capacity, w) && Sends(capacity, w, c)
    ensures var m' := Step(capacity, w, SendTo(c)).mail;
      && (forall d :: d in w.phase ==> QueueOK(capacity, m', d))
      && forall d, q :: (d, q) in m'.missed ==> MissOK(capacity, m', d, q)
  {
    var m' := Step(capacity, w, SendTo(c)).mail;
    forall d | d in w.phase ensures QueueOK(capacity, m', d) {
      OneQueueChanged(capacity, w, c, d);
    }
    forall d, q | (d, q) in m'.missed ensures MissOK(capacity, m', d, q) {
      QueuedMisses(capacity, w, c, d, q);
    }
  }

  lemma QueuedOutstanding(capacity: nat, w: World, c: Id, d: Id, q: nat)
    requires MailOK(capacity, w) && Sends(capacity, w, c) && Outstanding(Step(capacity, w, SendTo(c)), d, q)
    ensures d in w.phase && NotYet(Step(capacity, w, SendTo(c)).mail, d, q)
  {
    assert Outstanding(w, d, q);
    OneQueueChanged(capacity, w, c, d);
  }

  lemma OfferQueued(capacity: nat, w: World, c: Id)
    requires MailOK(capacity, w) && Sends(capacity, w, c)
    ensures MailOK(capacity, Step(capacity, w, SendTo(c)))
  {
    QueuedRest(capacity, w, c);
    QueuedQueues(capacity, w, c);
    QueuedAllServed(capacity, w, c);
    QueuedAllOutstanding(capacity, w, c);
  }

  /** What a send that finds room leaves alone. */
  lemma QueuedRest(capacity: nat, w: World, c: Id)
    requires MailOK(capacity, w) && Sends(capacity, w, c)
    ensures var w' := Step(capacity, w, SendTo(c));
      && Shape(w') && w'.phase == w.phase && w'.mail.log == w.mail.log && w'.mail.targets == w.mail.targets
      && (forall p, d :: 0 <= p < |w'.mail.log| && d in w'.mail.targets[p] ==> d in w'.phase)
      && w'.mail.sent == w'.mail.log + InLoop(w') + w'.mail.pending && |w'.mail.pending| <= BROADCAST_BUFFER
  {
  }

  lemma QueuedAllServed(capacity: nat, w: World, c: Id)
    requires MailOK(capacity, w) && Sends(capacity, w, c)
    ensures var w' := Step(capacity, w, SendTo(c));
      forall q, d :: 0 <= q < |w'.mail.log| && d in w'.mail.targets[q] ==> d in w'.phase && Served(w', d, q)
  {
    var w' := Step(capacity, w, SendTo(c));
    forall q, d | 0 <= q < |w'.mail.log| && d in w'.mail.targets[q] ensures d in w'.phase && Served(w', d, q) {
      QueuedServes(capacity, w, c, d, q);
    }
  }

  lemma QueuedAllOutstanding(capacity: nat, w: World, c: Id)
    requires MailOK(capacity, w) && Sends(capacity, w, c)
    ensures var w' := Step(capacity, w, SendTo(c));
      forall d, q :: Outstanding(w', d, q) ==> d in w'.phase && NotYet(w'.mail, d, q)
  {
    var w' := Step(capacity, w, SendTo(c));
    forall d, q | Outstanding(w', d, q) ensures d in w'.phase && NotYet(w'.mail, d, q) {
      QueuedOutstanding(capacity, w, c, d, q);
    }
  }

  lemma QueuedServes(capacity: nat, w: World, c: Id, d: Id, q: nat)
    requires MailOK(capacity, w) && Sends(capacity, w, c)
    requires q < |w.mail.log| && d in w.mail.targets[q]
    ensures d in w.phase && Served(Step(capacity, w, SendTo(c)), d, q)
  {
    assert Served(w, d, q);
    OneQueueChanged(capacity, w, c, d);
  }

  lemma QueuedMisses(capacity: nat, w: World, c: Id, d: Id, q: nat)
    requires MailOK(capacity, w) && Sends(capacity, w, c)
    requires (d, q) in w.mail.missed
    ensures MissOK(capacity, Step(capacity, w, SendTo(c)).mail, d, q)
  {
    assert MissOK(capacity, w.mail, d, q);
    assert Outstanding(w, c, w.loop.position);
    OneQueueChanged(capacity, w, c, d);
  }

  /** Only the recipient's queue changes, by the position being sent. */
  lemma OneQueueChanged(capacity: nat, w: World, c: Id, d: Id)
    requires MailOK(capacity, w) && Sends(capacity, w, c)
    requires d in w.phase
    ensures var m' := Step(capacity, w, SendTo(c)).mail;
      && QueueOK(capacity, m', d)
      && Received(m', d) == Received(w.mail, d) + (if d == c then [w.loop.position] else [])
  {
    var m' := Step(capacity, w, SendTo(c)).mail;
    assert QueueOK(capacity, w.mail, d);
    if d == c {
      assert Outstanding(w, c, w.loop.position);
      QueueGrows(capacity, w.mail, m', c, w.loop.position);
    } else {
      assert Received(m', d) == Received(w.mail, d);
    }
  }

  lemma MissedMisses(capacity: nat, w: World, c: Id, d: Id, q: nat)
    requires MailOK(capacity, w) && Enabled(w, SendTo(c)) && c !in w.index.closed && |w.mail.queue[c]| >= capacity
    requires (d, q) in Step(capacity, w, SendTo(c)).mail.missed
    ensures MissOK(capacity, Step(capacity, w, SendTo(c)).mail, d, q)
  {
    if (d, q) == (c, w.loop.position) {
      assert Outstanding(w, c, w.loop.position) && QueueOK(capacity, w.mail, c);
    } else {
      assert MissOK(capacity, w.mail, d, q);
    }
  }

  lemma OfferMissed(capacity: nat, w: World, c: Id)
    requires MailOK(capacity, w) && Enabled(w, SendTo(c)) && c !in w.index.closed && |w.mail.queue[c]| >= capacity
    ensures MailOK(capacity, Step(capacity, w, SendTo(c)))
  {
    var w' := Step(capacity, w, SendTo(c));
    forall d, q | 0 <= q < |w'.mail.log| && d in w'.mail.targets[q] ensures Served(w', d, q) {
      assert Served(w, d, q);
    }
    forall d, q | (d, q) in w'.mail.missed ensures MissOK(capacity, w'.mail, d, q) {
      MissedMisses(capacity, w, c, d, q);
    }
    forall d, q | Outstanding(w', d, q) ensures d in w'.phase && NotYet(w'.mail, d, q) {
      assert Outstanding(w, d, q);
    }
    forall d | d in w'.phase ensures QueueOK(capacity, w'.mail, d) {
      assert QueueOK(capacity, w.mail, d);
    }
  }

  lemma OfferPanics(capacity: nat, w: World, c: Id)
    requires MailOK(capacity, w) && Enabled(w, SendTo(c)) && c in w.index.closed
    ensures MailOK(capacity, Step(capacity, w, SendTo(c)))
  {
    var w' := Step(capacity, w, SendTo(c));
    forall d, q | (d, q) in w'.mail.missed ensures MissOK(capacity, w'.mail, d, q) {
      assert MissOK(capacity, w.mail, d, q);
    }
    forall d, q | Outstanding(w', d, q) ensures d in w'.phase && NotYet(w'.mail, d, q) {
      assert Outstanding(w, d, q);
    }
    forall d | d in w'.phase ensures QueueOK(capacity, w'.mail, d) {
      assert QueueOK(capacity, w.mail, d);
    }
  }

  lemma DispatchKeepsQueues(capacity: nat, w: World)
    requires MailOK(capacity, w) && Enabled(w, BeginDispatch)
    ensures var m' := Step(capacity, w, BeginDispatch).mail;
      && (forall c :: c in w.phase ==> QueueOK(capacity, m', c))
      && (forall c, p :: (c, p) in m'.missed ==> MissOK(capacity, m', c, p))
  {
  }

  lemma DispatchKeeps(capacity: nat, w: World)
    requires MailOK(capacity, w) && Enabled(w, BeginDispatch)
    requires Targets(w.index.clients, w.index.rooms, w.loop.env.room) <= w.phase.Keys
    ensures MailOK(capacity, Step(capacity, w, BeginDispatch))
  {
    var w' := Step(capacity, w, BeginDispatch);
    var n := |w.mail.log|;
    DispatchKeepsQueues(capacity, w);
    forall p, c | 0 <= p < |w'.mail.log| && c in w'.mail.targets[p] ensures c in w'.phase && Served(w', c, p) {
      if p < n {
        StillServed(capacity, w, c, p);
      } else {
        assert Outstanding(w', c, p);
      }
    }
    forall c: Id, p: nat | Outstanding(w', c, p) ensures c in w'.phase && NotYet(w'.mail, c, p) {
      NewPosition(capacity, w, c);
    }
  }

  lemma StillServed(capacity: nat, w: World, c: Id, p: nat)
    requires MailOK(capacity, w) && Enabled(w, BeginDispatch) && p < |w.mail.log| && c in w.mail.targets[p]
    ensures c in w.phase && Served(Step(capacity, w, BeginDispatch), c, p)
  {
  }

  /** Nobody has anything of the next position yet. */
  lemma NewPosition(capacity: nat, w: World, c: Id)
    requires MailOK(capacity, w) && c in w.phase
    ensures NotYet(w.mail, c, |w.mail.log|)
  {
  }

  lemma TargetsKnown(w: World)
    requires Safe(w)
    ensures forall room, c :: c in Targets(w.index.clients, w.index.rooms, room) ==> c in w.phase
  {
  }

  lemma WriteOutKeeps(capacity: nat, w: World, c: Id)
    requires MailOK(capacity, w) && Enabled(w, WriteOut(c))
    ensures MailOK(capacity, Step(capacity, w, WriteOut(c)))
  {
    var w' := Step(capacity, w, WriteOut(c));
    forall d | d in w.phase ensures Received(w'.mail, d) == Received(w.mail, d) {
      if d == c {
        HeadMoves(w.mail.taken[c], w.mail.queue[c]);
      }
    }
    SameReceived(capacity, w, w');
  }

  lemma HeadMoves(taken: seq<nat>, queue: seq<nat>)
    requires queue != []
    ensures (taken + [queue[0]]) + queue[1..] == taken + queue
  {
  }

  /** Steps that leave the record of deliveries and the dispatch alone. */
  lemma SameReceived(capacity: nat, w: World, w': World)
    requires MailOK(capacity, w) && Shape(w') && w'.phase.Keys == w.phase.Keys
    requires w'.mail.log == w.mail.log && w'.mail.targets == w.mail.targets && w'.mail.missed == w.mail.missed
    requires w'.mail.sentToClosed == w.mail.sentToClosed
    requires w'.mail.sent == w'.mail.log + InLoop(w') + w'.mail.pending && |w'.mail.pending| <= BROADCAST_BUFFER
    requires forall c :: c in w.phase ==> |w'.mail.queue[c]| <= |w.mail.queue[c]|
    requires forall c :: c in w.phase ==> Received(w'.mail, c) == Received(w.mail, c)
    requires forall c, p :: Outstanding(w', c, p) <==> Outstanding(w, c, p)
    ensures MailOK(capacity, w')
  {
    forall c | c in w'.phase ensures QueueOK(capacity, w'.mail, c) {
      assert QueueOK(capacity, w.mail, c);
    }
    forall c, p | (c, p) in w'.mail.missed ensures MissOK(capacity, w'.mail, c, p) {
      assert MissOK(capacity, w.mail, c, p);
    }
    forall p, c | 0 <= p < |w'.mail.log| && c in w'.mail.targets[p] ensures Served(w', c, p) {
      assert Served(w, c, p);
    }
    forall c, p | Outstanding(w', c, p) ensures c in w'.phase && NotYet(w'.mail, c, p) {
      assert Outstanding(w, c, p);
    }
  }

  lemma ConnectKeeps(capacity: nat, w: World, c: Id)
    requires MailOK(capacity, w) && Enabled(w, Connect(c))
    ensures MailOK(capacity, Step(capacity, w, Connect(c)))
  {
    var w' := Step(capacity, w, Connect(c));
    assert forall d :: d in w.phase ==> Received(w'.mail, d) == Received(w.mail, d);
    forall d | d in w'.phase ensures QueueOK(capacity, w'.mail, d) {
      if d != c {
        assert QueueOK(capacity, w.mail, d);
      }
    }
    forall d, p | (d, p) in w'.mail.missed ensures MissOK(capacity, w'.mail, d, p) {
      assert MissOK(capacity, w.mail, d, p);
    }
    forall p, d | 0 <= p < |w'.mail.log| && d in w'.mail.targets[p] ensures Served(w', d, p) {
      assert Served(w, d, p);
    }
    forall d, p | Outstanding(w', d, p) ensures d in w'.phase && NotYet(w'.mail, d, p) {
      assert Outstanding(w, d, p);
    }
  }

  lemma ReceiveKeeps(capacity: nat, w: World)
    requires MailOK(capacity, w) && Enabled(w, Receive) && Shape(Step(capacity, w, Receive))
    ensures MailOK(capacity, Step(capacity, w, Receive))
  {
    assert w.mail.pending == [w.mail.pending[0]] + w.mail.pending[1..];
    SameReceived(capacity, w, Step(capacity, w, Receive));
  }

  lemma OtherKeeps(capacity: nat, w: World, m: Move)
    requires MailOK(capacity, w) && Enabled(w, m) && Shape(Step(capacity, w, m))
    requires !m.SendTo? && !m.Receive? && !m.BeginDispatch? && !m.WriteOut? && !m.Connect?
    ensures MailOK(capacity, Step(capacity, w, m))
  {
    SameReceived(capacity, w, Step(capacity, w, m));
  }

  lemma OfferKeeps(capacity: nat, w: World, c: Id)
    requires MailOK(capacity, w) && Enabled(w, SendTo(c))
    ensures MailOK(capacity, Step(capacity, w, SendTo(c)))
  {
    if c in w.index.closed {
      OfferPanics(capacity, w, c);
    } else if |w.mail.queue[c]| < capacity {
      OfferQueued(capacity, w, c);
    } else {
      OfferMissed(capacity, w, c);
    }
  }

  lemma MailStep(capacity: nat, w: World, m: Move)
    requires Safe(w) && MailOK(capacity, w) && Enabled(w, m)
    ensures MailOK(capacity, Step(capacity, w, m))
  {
    SafeStep(capacity, w, m);
    ShapeOfSafe(Step(capacity, w, m));
    match m {
      case SendTo(c) => OfferKeeps(capacity, w, c);
      case Receive => ReceiveKeeps(capacity, w);
      case BeginDispatch => TargetsKnown(w); DispatchKeeps(capacity, w);
      case WriteOut(c) => WriteOutKeeps(capacity, w, c);
      case Connect(c) => ConnectKeeps(capacity, w, c);
      case _ => OtherKeeps(capacity, w, m);
    }
  }

  lemma {:induction false} MailPlay(capacity: nat, moves: seq<Move>)
    ensures MailOK(capacity, Play(capacity, moves))
    decreases |moves|
  {
    if moves != [] {
      var n := |moves| - 1;
      MailPlay(capacity, moves[..n]);
      SafePlay(capacity, moves[..n]);
      if Enabled(Play(capacity, moves[..n]), moves[n]) {
        MailStep(capacity, Play(capacity, moves[..n]), moves[n]);
      }
    }
  }

  // ----- Main results -----

  /** Each client receives a subsequence of the one dispatch order, in order, made only of messages it was a
      target of; the dispatch order is the order of the broadcasts. */
  lemma DeliveredInDispatchOrder(capacity: nat, moves: seq<Move>, c: Id)
    requires c in Play(capacity, moves).phase
    ensures var m := Play(capacity, moves).mail;
      && c in m.taken && c in m.queue && |m.log| == |m.targets|
      && Increasing(m.taken[c] + m.queue[c])
      && (forall p :: p in m.taken[c] + m.queue[c] ==> p < |m.log| && c in m.targets[p])
      && |m.queue[c]| <= capacity
      && m.sent == m.log + InLoop(Play(capacity, moves)) + m.pending
  {
    MailPlay(capacity, moves);
    var m := Play(capacity, moves).mail;
    assert QueueOK(capacity, m, c);
    assert Received(m, c) == m.taken[c] + m.queue[c];
  }

  /** In any run without a panic, between dispatches, a message meant for c is either in what c received or was
      dropped because its queue held as many messages as it can, and never both. */
  lemma MissedOnlyWhenFull(capacity: nat, moves: seq<Move>, c: Id, p: nat)
    requires !Play(capacity, moves).mail.sentToClosed
    requires var w := Play(capacity, moves); !w.loop.Sending? && p < |w.mail.log| == |w.mail.targets| && c in w.mail.targets[p]
    ensures var m := Play(capacity, moves).mail;
      && c in m.taken && c in m.queue
      && (p in m.taken[c] + m.queue[c] <==> (c, p) !in m.missed)
      && ((c, p) in m.missed ==> m.missed[(c, p)] == capacity)
  {
    MailPlay(capacity, moves);
    var w := Play(capacity, moves);
    assert Served(w, c, p);
    if (c, p) in w.mail.missed {
      assert MissOK(capacity, w.mail, c, p);
    }
  }

  // ----- Whom a message is for -----

  /** To no room: whoever is in the hub. To a room: whoever has joined it and not left; of those removed from the hub,
      whoever joined after the removal. */
  predicate MeantFor(x: Index, room: string, c: Id) {
    if room == "" then c in x.clients
    else c in x.joined && if c in x.closed then (c, room) in x.late else room in x.joined[c]
  }

  lemma DispatchAddresses(capacity: nat, w: World)
    requires Safe(w) && Enabled(w, BeginDispatch)
    ensures var m, n := Step(capacity, w, BeginDispatch).mail, |w.mail.log|;
      && m.log == w.mail.log + [w.loop.env] && |m.targets| == n + 1
      && m.targets[..n] == w.mail.targets
      && forall c :: c in m.targets[n] <==> MeantFor(w.index, w.loop.env.room, c)
  {
    var x, room := w.index, w.loop.env.room;
    if room != "" {
      forall c ensures c in Members(x.rooms, room) <==> MeantFor(x, room, c) {
        assert c in Members(x.rooms, room) ==> c in x.joined;
      }
    }
  }

  /** Message p was dispatched by the n-th move, to exactly the clients it was meant for at that moment. */
  ghost predicate DispatchedAt(capacity: nat, moves: seq<Move>, m: Mail, n: nat, p: nat) {
    && n < |moves| && moves[n] == BeginDispatch && Enabled(Play(capacity, moves[..n]), BeginDispatch)
    && p < |m.log| == |m.targets|
    && Play(capacity, moves[..n]).loop.env == m.log[p]
    && forall c :: c in m.targets[p] <==> MeantFor(Play(capacity, moves[..n]).index, m.log[p].room, c)
  }

  lemma RecordGrows(capacity: nat, w: World, m: Move)
    requires Enabled(w, m) && m != BeginDispatch
    ensures Step(capacity, w, m).mail.log == w.mail.log && Step(capacity, w, m).mail.targets == w.mail.targets
  {
  }

  /** Main result: in every interleaving each message was dispatched by one step to exactly the clients it was meant for
      at that step. */
  lemma {:induction false} EveryMessageIsAddressed(capacity: nat, moves: seq<Move>, p: nat) returns (n: nat)
    requires p < |Play(capacity, moves).mail.log|
    ensures DispatchedAt(capacity, moves, Play(capacity, moves).mail, n, p)
    decreases |moves|
  {
    var last := |moves| - 1;
    var before := moves[..last];
    var w, m := Play(capacity, before), moves[last];
    SafePlay(capacity, before);
    if Enabled(w, m) && m == BeginDispatch {
      DispatchAddresses(capacity, w);
    } else if Enabled(w, m) {
      RecordGrows(capacity, w, m);
    }
    if p < |w.mail.log| {
      n := EveryMessageIsAddressed(capacity, before, p);
      assert before[..n] == moves[..n];
      assert Play(capacity, moves).mail.targets[p] == w.mail.targets[p];
    } else {
      n := last;
    }
  }

  /** So in any run without a panic, between dispatches, a client has received exactly the messages meant for it when
      they were dispatched, those aside that found its queue full. */
  lemma ReceivedIffMeant(capacity: nat, moves: seq<Move>, c: Id, p: nat)
    requires !Play(capacity, moves).mail.sentToClosed && !Play(capacity, moves).loop.Sending?
    requires p < |Play(capacity, moves).mail.log| && c in Play(capacity, moves).phase
    ensures var m := Play(capacity, moves).mail;
      && c in m.taken && c in m.queue
      && exists n: nat :: DispatchedAt(capacity, moves, m, n, p) && (p in m.taken[c] + m.queue[c]
           <==> MeantFor(Play(capacity, moves[..n]).index, m.log[p].room, c) && (c, p) !in m.missed)
  {
    var n := EveryMessageIsAddressed(capacity, moves, p);
    DeliveredInDispatchOrder(capacity, moves, c);
    if c in Play(capacity, moves).mail.targets[p] {
      MissedOnlyWhenFull(capacity, moves, c, p);
    }
  }
}
