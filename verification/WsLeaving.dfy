/** What is left of a WebSocket client when its handler has returned, over every interleaving of the hub. */
module WsLeaving {
  import opened WsRooms
  import opened WsHub

  /** The handler removes its client itself, after Close, while the loop has received the client and not yet put it
      into the index. */
  predicate Overtakes(w: World, m: Move, c: Id) { m == RemoveDirectly(c) && Enabled(w, m) && w.loop == Registering(c) }

  ghost predicate OvertakesAt(capacity: nat, moves: seq<Move>, i: nat, c: Id) {
    i < |moves| && Overtakes(Play(capacity, moves[..i]), moves[i], c)
  }

  ghost predicate Overtaken(capacity: nat, moves: seq<Move>, c: Id) { exists i :: OvertakesAt(capacity, moves, i, c) }

  lemma OvertakenGrows(capacity: nat, moves: seq<Move>, m: Move, c: Id)
    ensures Overtaken(capacity, moves + [m], c)
      <==> Overtaken(capacity, moves, c) || Overtakes(Play(capacity, moves), m, c)
  {
    var more := moves + [m];
    forall i: nat | i < |moves|
      ensures OvertakesAt(capacity, more, i, c) <==> OvertakesAt(capacity, moves, i, c)
    {
      assert more[..i] == moves[..i];
    }
    assert more[..|moves|] == moves;
    assert OvertakesAt(capacity, more, |moves|, c) <==> Overtakes(Play(capacity, moves), m, c);
    if Overtaken(capacity, moves, c) {
      var i :| OvertakesAt(capacity, moves, i, c);
      assert OvertakesAt(capacity, more, i, c);
    }
  }

  /** Where c is, given whether its removal came too early. */
  ghost predicate Tracked(w: World, c: Id, early: bool) {
    && (early ==> c in w.phase && w.phase[c] == Gone && w.loop != Removing(c)
                  && (c in w.index.clients || w.loop == Registering(c)))
    && (!early && c in w.phase && w.phase[c] in {Serving, Leaving} ==> c in w.index.clients || w.loop == Registering(c))
    && (!early && c in w.phase && w.phase[c] == Gone ==>
          (c in w.index.closed && w.loop != Registering(c) && w.loop != Removing(c))
          || (w.loop == Removing(c) && c in w.index.clients))
  }

  lemma TrackedStep(capacity: nat, w: World, m: Move, c: Id, early: bool)
    requires Safe(w) && Tracked(w, c, early) && Enabled(w, m)
    ensures Tracked(Step(capacity, w, m), c, early || Overtakes(w, m, c))
  {
    if OnIndex(m) {
      TrackedOnIndex(capacity, w, m, c, early);
    } else {
      assert Step(capacity, w, m).index.clients == w.index.clients && Step(capacity, w, m).index.closed == w.index.closed;
    }
  }

  lemma TrackedOnIndex(capacity: nat, w: World, m: Move, c: Id, early: bool)
    requires Safe(w) && Tracked(w, c, early) && Enabled(w, m) && OnIndex(m)
    ensures Tracked(Step(capacity, w, m), c, early || Overtakes(w, m, c))
  {
  }

  lemma TrackedMove(capacity: nat, w: World, m: Move, c: Id, early: bool)
    requires Safe(w) && Tracked(w, c, early)
    ensures Tracked(if Enabled(w, m) then Step(capacity, w, m) else w, c, early || Overtakes(w, m, c))
  {
    if Enabled(w, m) {
      TrackedStep(capacity, w, m, c, early);
    }
  }

  lemma {:induction false} TrackedPlay(capacity: nat, moves: seq<Move>, c: Id)
    ensures Tracked(Play(capacity, moves), c, Overtaken(capacity, moves, c))
    decreases |moves|
  {
    if moves != [] {
      var n := |moves| - 1;
      var before := moves[..n];
      SafePlay(capacity, before);
      TrackedPlay(capacity, before, c);
      OvertakenGrows(capacity, before, moves[n], c);
      assert before + [moves[n]] == moves;
      TrackedMove(capacity, Play(capacity, before), moves[n], c, Overtaken(capacity, before, c));
    }
  }

  /** Main result: once handler and loop are both done with a client, it is still in the index if and only if its
      handler removed it before the loop had put it there; its channel is closed exactly if it is not. */
  lemma StaysIff(capacity: nat, moves: seq<Move>, c: Id)
    requires var w := Play(capacity, moves);
      c in w.phase && w.phase[c] == Gone && w.loop != Registering(c) && w.loop != Removing(c)
    ensures var x := Play(capacity, moves).index;
      && (c in x.clients <==> Overtaken(capacity, moves, c))
      && (c in x.closed <==> c !in x.clients)
  {
    TrackedPlay(capacity, moves, c);
    SafePlay(capacity, moves);
  }

  /** The loop has received client c and not put it into the index, and the hub has been closed. */
  function OnTheWay(c: Id, phase: Phase): World {
    World(Index({}, map[], map[c := {}], {}, {}, false),
          Mail(map[c := []], map[c := []], [], [], map[], [], [], false), Registering(c), map[c := phase], true)
  }

  lemma GetsOnTheWay(capacity: nat, c: Id)
    ensures Play(capacity, [Connect(c), Start, Register(c), Close]) == OnTheWay(c, Serving)
  {
    var w4 := OnTheWay(c, Serving);
    var w3 := w4.(done := false);
    var w2 := w3.(loop := Idle, phase := map[c := Created]);
    var script := [Connect(c), Start, Register(c), Close];
    PlayScript(capacity, script, INITIAL, [INITIAL, w2.(loop := NotStarted), w2, w3, w4], []);
    assert [] + script == script;
  }

  function LeftBehind(c: Id): World {
    var w := OnTheWay(c, Gone);
    w.(loop := Stopped, index := w.index.(clients := {c}))
  }

  lemma LeavesEarly(capacity: nat, c: Id, before: seq<Move>)
    requires Play(capacity, before) == OnTheWay(c, Serving)
    ensures Play(capacity, before + [ReadFails(c), RemoveDirectly(c)]) == OnTheWay(c, Gone)
  {
    PlayScript(capacity, [ReadFails(c), RemoveDirectly(c)], OnTheWay(c, Serving),
               [OnTheWay(c, Serving), OnTheWay(c, Leaving), OnTheWay(c, Gone)], before);
  }

  lemma InsertedLate(capacity: nat, c: Id, before: seq<Move>)
    requires Play(capacity, before) == OnTheWay(c, Gone)
    ensures Play(capacity, before + [Insert, Stop]) == LeftBehind(c)
  {
    assert {} + {c} == {c};
    PlayScript(capacity, [Insert, Stop], OnTheWay(c, Gone),
               [OnTheWay(c, Gone), LeftBehind(c).(loop := Idle), LeftBehind(c)], before);
  }

  /** Such a run: the loop receives the client, Close comes, the connection fails and the handler finds nothing to
      remove; then the loop puts the client into the index and stops. */
  lemma ClientStays(capacity: nat, c: Id)
    ensures exists moves :: var w := Play(capacity, moves);
      w.loop == Stopped && w.phase == map[c := Gone] && w.index.clients == {c} && w.index.closed == {}
  {
    GetsOnTheWay(capacity, c);
    LeavesEarly(capacity, c, [Connect(c), Start, Register(c), Close]);
    InsertedLate(capacity, c, [Connect(c), Start, Register(c), Close] + [ReadFails(c), RemoveDirectly(c)]);
  }

  // ----- Nobody hangs after Close -----

  lemma RecipientsKnown(w: World, c: Id)
    requires Safe(w) && w.loop.Sending? && c in w.loop.rest
    ensures Known(w, c)
  {
    assert c in Targets(w.index.clients, w.index.rooms, w.mail.log[w.loop.position].room);
  }

  lemma PlayOne(capacity: nat, moves: seq<Move>, m: Move)
    requires Enabled(Play(capacity, moves), m)
    ensures Play(capacity, moves + [m]) == Step(capacity, Play(capacity, moves), m)
  {
    assert (moves + [m])[..|moves|] == moves;
  }

  /** Handlers and index are as they were. */
  predicate SameHub(w: World, w': World) { w'.phase == w.phase && w'.index == w.index && w'.done == w.done }

  lemma SendsOne(capacity: nat, moves: seq<Move>, c: Id)
    requires var w := Play(capacity, moves); w.loop.Sending? && c in w.loop.rest
    ensures var w, w' := Play(capacity, moves), Play(capacity, moves + [SendTo(c)]);
      SameHub(w, w') && w'.loop == Sending(w.loop.position, w.loop.rest - {c})
  {
    SafePlay(capacity, moves);
    RecipientsKnown(Play(capacity, moves), c);
    PlayOne(capacity, moves, SendTo(c));
  }

  lemma EndsDispatch(capacity: nat, moves: seq<Move>)
    requires var w := Play(capacity, moves); w.loop.Sending? && w.loop.rest == {}
    ensures SameHub(Play(capacity, moves), Play(capacity, moves + [EndDispatch]))
    ensures Play(capacity, moves + [EndDispatch]).loop == Idle
  {
    PlayOne(capacity, moves, EndDispatch);
  }

  /** A dispatch under way never waits for its recipients: with these left, it can end by its own steps. */
  lemma {:induction false} DispatchCanEnd(capacity: nat, moves: seq<Move>, left: set<Id>) returns (more: seq<Move>)
    requires Play(capacity, moves).loop.Sending? && Play(capacity, moves).loop.rest == left
    ensures SameHub(Play(capacity, moves), Play(capacity, moves + more)) && Play(capacity, moves + more).loop == Idle
    ensures forall i :: 0 <= i < |more| ==> more[i].SendTo? || more[i].EndDispatch?
    decreases left
  {
    if left == {} {
      more := [EndDispatch];
      EndsDispatch(capacity, moves);
    } else {
      var c :| c in left;
      SendsOne(capacity, moves, c);
      var after := DispatchCanEnd(capacity, moves + [SendTo(c)], left - {c});
      more := [SendTo(c)] + after;
      assert moves + more == moves + [SendTo(c)] + after;
    }
  }

  lemma TurnedAway(capacity: nat, moves: seq<Move>, c: Id)
    requires var w := Play(capacity, moves); w.done && c in w.phase && w.phase[c] == Created
    ensures var w := Play(capacity, moves + [Reject(c)]); c in w.phase && w.phase[c] == Rejected
  {
    SafePlay(capacity, moves);
    PlayOne(capacity, moves, Reject(c));
  }

  lemma Returns(capacity: nat, moves: seq<Move>, c: Id)
    requires var w := Play(capacity, moves); w.done && c in w.phase && w.phase[c] == Leaving && !w.loop.Sending?
    ensures var w := Play(capacity, moves + [RemoveDirectly(c)]); c in w.phase && w.phase[c] == Gone
  {
    SafePlay(capacity, moves);
    PlayOne(capacity, moves, RemoveDirectly(c));
  }

  /** Main result: once the hub has been closed, no handler hangs: one about to register is turned away, and one about to
      leave can return, at most after the dispatch under way has ended. */
  lemma NobodyHangsAfterClose(capacity: nat, moves: seq<Move>, c: Id) returns (more: seq<Move>)
    requires var w := Play(capacity, moves); w.done && c in w.phase && w.phase[c] in {Created, Leaving}
    ensures var w, w' := Play(capacity, moves), Play(capacity, moves + more);
      c in w'.phase && w'.phase[c] == if w.phase[c] == Created then Rejected else Gone
    ensures forall i :: 0 <= i < |more| ==>
      more[i].SendTo? || more[i].EndDispatch? || more[i] == Reject(c) || more[i] == RemoveDirectly(c)
  {
    var w := Play(capacity, moves);
    if w.phase[c] == Created {
      more := [Reject(c)];
      TurnedAway(capacity, moves, c);
    } else {
      var first: seq<Move> := [];
      if w.loop.Sending? {
        first := DispatchCanEnd(capacity, moves, w.loop.rest);
      } else {
        assert moves + first == moves;
      }
      more := first + [RemoveDirectly(c)];
      Returns(capacity, moves + first, c);
      assert moves + more == moves + first + [RemoveDirectly(c)];
    }
  }
}
