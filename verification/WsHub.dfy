/** Every interleaving of the WebSocket hub, irmik/ws/ws.go: connection handlers, the single event loop,
    the direct removal path after Close, and the writers draining their queues.

    Each step is one critical section or one channel operation. The loop receives a message in one step and takes the
    read lock in another. A dispatch holds the read lock over several
    steps, one per recipient; the sections that take the write lock are disabled meanwhile. */
module WsHub {
  import opened WsRooms

  /** Capacity of the broadcast channel. */
  const BROADCAST_BUFFER: nat := 256

  type Id = nat

  /** late records the (client, room) pairs entered after the client's removal and not left since. */
  datatype Index = Index(
    clients: set<Id>, rooms: Rooms<Id>, joined: map<Id, set<string>>,
    closed: set<Id>, late: set<(Id, string)>, closedTwice: bool)

  /** log is the dispatch order; targets[i] are the recipients of log[i]. queue and taken hold positions in log.
      missed maps (client, position) to the length of the client's queue when the message was dropped. */
  datatype Mail = Mail(
    queue: map<Id, seq<nat>>, taken: map<Id, seq<nat>>,
    log: seq<Envelope>, targets: seq<set<Id>>, missed: map<(Id, nat), nat>,
    sent: seq<Envelope>, pending: seq<Envelope>, sentToClosed: bool)

  datatype Loop = NotStarted | Idle | Registering(c: Id) | Removing(c: Id) | Received(env: Envelope) | Sending(position: nat, rest: set<Id>) | Stopped

  /** Where a connection handler is. */
  datatype Phase = Created | Serving | Leaving | Gone | Rejected

  datatype World = World(index: Index, mail: Mail, loop: Loop, phase: map<Id, Phase>, done: bool)

  datatype Move =
    | Connect(c: Id)
    | Join(c: Id, room: string)
    | Leave(c: Id, room: string)
    | Register(c: Id)
    | Reject(c: Id)
    | ReadFails(c: Id)
    | Unregister(c: Id)
    | RemoveDirectly(c: Id)
    | Publish(env: Envelope)
    | Start
    | Insert
    | Remove
    | Receive
    | BeginDispatch
    | SendTo(c: Id)
    | EndDispatch
    | Stop
    | WriteOut(c: Id)
    | Close

  const INITIAL: World :=
    World(Index({}, map[], map[], {}, {}, false),
          Mail(map[], map[], [], [], map[], [], [], false), NotStarted, map[], false)

  // ----- The sections on the index -----

  function JoinRoom(x: Index, c: Id, room: string): Index
    requires c in x.joined
  {
    x.(rooms := Enter(x.rooms, c, room), joined := x.joined[c := x.joined[c] + {room}],
       late := if c in x.closed then x.late + {(c, room)} else x.late)
  }

  function LeaveRoom(x: Index, c: Id, room: string): Index
    requires c in x.joined
  {
    x.(rooms := Exit(x.rooms, c, room), joined := x.joined[c := x.joined[c] - {room}], late := x.late - {(c, room)})
  }

  function RemoveClient(x: Index, c: Id): Index
    requires c in x.joined
  {
    if c !in x.clients then x else
    x.(clients := x.clients - {c}, rooms := ExitAll(x.rooms, c, x.joined[c]),
       closed := x.closed + {c}, closedTwice := x.closedTwice || c in x.closed)
  }

  // ----- The sections on the mail -----

  /** A non-blocking send of position p; sending on a closed channel panics. */
  function Offer(m: Mail, capacity: nat, closed: set<Id>, c: Id, p: nat): Mail
    requires c in m.queue
  {
    if c in closed then m.(sentToClosed := true)
    else if |m.queue[c]| < capacity then m.(queue := m.queue[c := m.queue[c] + [p]])
    else m.(missed := m.missed[(c, p) := |m.queue[c]|])
  }

  function Dispatched(m: Mail, env: Envelope, targets: set<Id>): Mail
  {
    m.(log := m.log + [env], targets := m.targets + [targets])
  }

  // ----- Steps -----

  /** The write lock is free unless a dispatch holds the read lock. */
  predicate Writable(w: World) { !w.loop.Sending? }

  predicate Known(w: World, c: Id) { c in w.phase && c in w.index.joined && c in w.mail.queue && c in w.mail.taken }

  predicate Enabled(w: World, m: Move) {
    match m
    case Connect(c) => c !in w.phase
    case Join(c, room) => Known(w, c) && Writable(w) && room != ""
    case Leave(c, _) => Known(w, c) && Writable(w)
    case Register(c) => Known(w, c) && w.phase[c] == Created && w.loop == Idle
    case Reject(c) => Known(w, c) && w.phase[c] == Created && w.done
    case ReadFails(c) => Known(w, c) && w.phase[c] == Serving
    case Unregister(c) => Known(w, c) && w.phase[c] == Leaving && w.loop == Idle
    case RemoveDirectly(c) => Known(w, c) && w.phase[c] == Leaving && w.done && Writable(w)
    case Publish(_) => |w.mail.pending| < BROADCAST_BUFFER
    case Start => w.loop == NotStarted
    case Insert => w.loop.Registering?
    case Remove => w.loop.Removing? && Known(w, w.loop.c)
    case Receive => w.loop == Idle && w.mail.pending != []
    case BeginDispatch => w.loop.Received?
    case SendTo(c) => Known(w, c) && w.loop.Sending? && c in w.loop.rest
    case EndDispatch => w.loop.Sending? && w.loop.rest == {}
    case Stop => w.loop == Idle && w.done
    case WriteOut(c) => Known(w, c) && w.mail.queue[c] != []
    case Close => true
  }

  function Step(capacity: nat, w: World, m: Move): World
    requires Enabled(w, m)
  {
    match m
    case Connect(c) =>
      w.(phase := w.phase[c := Created], index := w.index.(joined := w.index.joined[c := {}]),
         mail := w.mail.(queue := w.mail.queue[c := []], taken := w.mail.taken[c := []]))
    case Join(c, room) => w.(index := JoinRoom(w.index, c, room))
    case Leave(c, room) => w.(index := LeaveRoom(w.index, c, room))
    case Register(c) => w.(phase := w.phase[c := Serving], loop := Registering(c))
    case Reject(c) => w.(phase := w.phase[c := Rejected])
    case ReadFails(c) => w.(phase := w.phase[c := Leaving])
    case Unregister(c) => w.(phase := w.phase[c := Gone], loop := Removing(c))
    case RemoveDirectly(c) => w.(phase := w.phase[c := Gone], index := RemoveClient(w.index, c))
    case Publish(env) => w.(mail := w.mail.(sent := w.mail.sent + [env], pending := w.mail.pending + [env]))
    case Start => w.(loop := Idle)
    case Insert => w.(loop := Idle, index := w.index.(clients := w.index.clients + {w.loop.c}))
    case Remove => w.(loop := Idle, index := RemoveClient(w.index, w.loop.c))
    case Receive => w.(loop := Received(w.mail.pending[0]), mail := w.mail.(pending := w.mail.pending[1..]))
    case BeginDispatch =>
      var env := w.loop.env;
      var targets := Targets(w.index.clients, w.index.rooms, env.room);
      w.(loop := Sending(|w.mail.log|, targets), mail := Dispatched(w.mail, env, targets))
    case SendTo(c) =>
      w.(loop := Sending(w.loop.position, w.loop.rest - {c}),
         mail := Offer(w.mail, capacity, w.index.closed, c, w.loop.position))
    case EndDispatch => w.(loop := Idle)
    case Stop => w.(loop := Stopped)
    case WriteOut(c) =>
      var q := w.mail.queue[c];
      w.(mail := w.mail.(queue := w.mail.queue[c := q[1..]], taken := w.mail.taken[c := w.mail.taken[c] + [q[0]]]))
    case Close => w.(done := true)
  }

  /** Disabled moves change nothing, so every sequence of moves is a run. */
  function Play(capacity: nat, moves: seq<Move>): World
    decreases |moves|
  {
    if moves == [] then INITIAL else
    var n := |moves| - 1;
    var w := Play(capacity, moves[..n]);
    if Enabled(w, moves[n]) then Step(capacity, w, moves[n]) else w
  }

  // ----- Invariant of the index -----

  /** The two directions of the index agree for every client not yet removed; a removed client is in
      exactly the rooms it entered too late. */
  ghost predicate IndexOK(x: Index) {
    && NoEmptyRoom(x.rooms)
    && x.clients !! x.closed && !x.closedTwice
    && x.clients <= x.joined.Keys && x.closed <= x.joined.Keys
    && (forall r, c :: c in Members(x.rooms, r) ==> c in x.joined)
    && (forall r, c :: c in x.joined && c !in x.closed ==> (c in Members(x.rooms, r) <==> r in x.joined[c]))
    && (forall r, c :: c in x.closed ==> (c in Members(x.rooms, r) <==> (c, r) in x.late))
    && (forall r, c :: (c, r) in x.late ==> c in x.closed)
  }

  lemma JoinKeeps(x: Index, c: Id, room: string)
    requires IndexOK(x) && c in x.joined
    ensures IndexOK(JoinRoom(x, c, room))
  {
    var y := JoinRoom(x, c, room);
    assert forall r :: Members(y.rooms, r) == if r == room then Members(x.rooms, r) + {c} else Members(x.rooms, r);
  }

  lemma LeaveKeeps(x: Index, c: Id, room: string)
    requires IndexOK(x) && c in x.joined
    ensures IndexOK(LeaveRoom(x, c, room))
  {
    var y := LeaveRoom(x, c, room);
    assert forall r :: Members(y.rooms, r) == if r == room then Members(x.rooms, r) - {c} else Members(x.rooms, r);
  }

  lemma RemoveKeeps(x: Index, c: Id)
    requires IndexOK(x) && c in x.joined
    ensures IndexOK(RemoveClient(x, c))
  {
    if c in x.clients {
      var y := RemoveClient(x, c);
      assert forall r :: Members(y.rooms, r) == if r in x.joined[c] then Members(x.rooms, r) - {c} else Members(x.rooms, r);
      assert forall r :: c in Members(x.rooms, r) <==> r in x.joined[c];
      assert forall r :: c !in Members(y.rooms, r);
      assert forall r :: (c, r) !in x.late;
    }
  }

  // ----- Invariant of the whole -----

  /** Handlers and loop: a client is inserted once, while its channel is still open. */
  ghost predicate PhasesOK(w: World) {
    && w.phase.Keys == w.index.joined.Keys == w.mail.queue.Keys == w.mail.taken.Keys
    && (forall c :: c in w.phase && w.phase[c] in {Created, Rejected} ==> c !in w.index.clients && c !in w.index.closed)
    && (w.loop.Registering? ==>
          w.loop.c in w.phase && w.phase[w.loop.c] !in {Created, Rejected}
          && w.loop.c !in w.index.clients && w.loop.c !in w.index.closed)
    && (w.loop.Removing? ==> w.loop.c in w.phase && w.phase[w.loop.c] == Gone)
  }

  /** A dispatch under way: what remains to be served are targets of the message, and the index is as it was. */
  ghost predicate DispatchOK(w: World) {
    && |w.mail.targets| == |w.mail.log|
    && (w.loop.Sending? ==>
      && w.loop.position + 1 == |w.mail.log|
      && w.loop.rest <= w.mail.targets[w.loop.position]
      && w.mail.targets[w.loop.position] == Targets(w.index.clients, w.index.rooms, w.mail.log[w.loop.position].room))
  }

  ghost predicate Safe(w: World) {
    IndexOK(w.index) && PhasesOK(w) && DispatchOK(w)
  }

  predicate OnIndex(m: Move) { m.Join? || m.Leave? || m.RemoveDirectly? || m.Insert? || m.Remove? }

  predicate OnMail(m: Move) { m.Publish? || m.Receive? || m.BeginDispatch? || m.SendTo? || m.EndDispatch? || m.WriteOut? }

  lemma SafeOnIndex(capacity: nat, w: World, m: Move)
    requires Safe(w) && Enabled(w, m) && OnIndex(m)
    ensures Safe(Step(capacity, w, m))
  {
    match m
    case Join(c, room) => JoinKeeps(w.index, c, room);
    case Leave(c, room) => LeaveKeeps(w.index, c, room);
    case RemoveDirectly(c) => RemoveKeeps(w.index, c);
    case Insert =>
    case Remove => RemoveKeeps(w.index, w.loop.c);
  }

  lemma SafeOnMail(capacity: nat, w: World, m: Move)
    requires Safe(w) && Enabled(w, m) && OnMail(m)
    ensures Safe(Step(capacity, w, m))
  {
    var w' := Step(capacity, w, m);
    assert w'.index == w.index && w'.phase == w.phase;
    MailDispatch(capacity, w, m);
    assert PhasesOK(w');
  }

  lemma MailDispatch(capacity: nat, w: World, m: Move)
    requires DispatchOK(w) && Enabled(w, m) && OnMail(m)
    ensures DispatchOK(Step(capacity, w, m))
  {
  }

  lemma SafeConnect(capacity: nat, w: World, c: Id)
    requires Safe(w) && Enabled(w, Connect(c))
    ensures Safe(Step(capacity, w, Connect(c)))
  {
    var x := Step(capacity, w, Connect(c)).index;
    assert x == w.index.(joined := w.index.joined[c := {}]);
    assert IndexOK(x);
  }

  /** Handlers and loop move on; index and mail stay. */
  lemma SafeOther(capacity: nat, w: World, m: Move)
    requires Safe(w) && Enabled(w, m) && !OnIndex(m) && !OnMail(m) && !m.Connect?
    ensures Safe(Step(capacity, w, m))
  {
    var w' := Step(capacity, w, m);
    assert w'.index == w.index && w'.mail == w.mail;
    assert PhasesOK(w');
  }

  lemma SafeStep(capacity: nat, w: World, m: Move)
    requires Safe(w) && Enabled(w, m)
    ensures Safe(Step(capacity, w, m))
  {
    if OnIndex(m) {
      SafeOnIndex(capacity, w, m);
    } else if OnMail(m) {
      SafeOnMail(capacity, w, m);
    } else if m.Connect? {
      SafeConnect(capacity, w, m.c);
    } else {
      SafeOther(capacity, w, m);
    }
  }

  lemma {:induction false} SafePlay(capacity: nat, moves: seq<Move>)
    ensures Safe(Play(capacity, moves))
    decreases |moves|
  {
    if moves != [] {
      var n := |moves| - 1;
      SafePlay(capacity, moves[..n]);
      var w := Play(capacity, moves[..n]);
      if Enabled(w, moves[n]) {
        SafeStep(capacity, w, moves[n]);
      }
    }
  }

  // ----- Main results on channels and rooms -----

  /** In every interleaving, including joins and leaves at any time, each client's channel is closed at most
      once, no empty room is kept, and for a client not yet removed c in rooms[r] iff r in c.rooms. */
  lemma IndexAlwaysAgrees(capacity: nat, moves: seq<Move>)
    ensures var x := Play(capacity, moves).index;
      && !x.closedTwice && x.clients !! x.closed
      && (forall r :: r in x.rooms ==> x.rooms[r] != {})
      && (forall r, c :: c in x.joined && c !in x.closed ==> ((r in x.rooms && c in x.rooms[r]) <==> r in x.joined[c]))
  {
    SafePlay(capacity, moves);
    var x := Play(capacity, moves).index;
    forall r, c | c in x.joined && c !in x.closed
      ensures (r in x.rooms && c in x.rooms[r]) <==> r in x.joined[c]
    {
      assert c in Members(x.rooms, r) <==> r in x.joined[c];
    }
  }

  /** The i-th move makes c join the room. */
  ghost predicate JoinsAt(capacity: nat, moves: seq<Move>, i: nat, c: Id, room: string) {
    i < |moves| && moves[i] == Join(c, room) && Enabled(Play(capacity, moves[..i]), moves[i])
  }

  ghost predicate LeavesAt(capacity: nat, moves: seq<Move>, i: nat, c: Id, room: string) {
    i < |moves| && moves[i] == Leave(c, room) && Enabled(Play(capacity, moves[..i]), moves[i])
  }

  /** c has joined the room and not left it since. */
  ghost predicate Stays(capacity: nat, moves: seq<Move>, c: Id, room: string) {
    exists i :: JoinsAt(capacity, moves, i, c, room) && forall j :: i < j ==> !LeavesAt(capacity, moves, j, c, room)
  }

  lemma StaysGrows(capacity: nat, moves: seq<Move>, m: Move, c: Id, room: string)
    ensures var more, w := moves + [m], Play(capacity, moves);
      Stays(capacity, more, c, room)
      <==> (m == Join(c, room) && Enabled(w, m)) || (Stays(capacity, moves, c, room) && !(m == Leave(c, room) && Enabled(w, m)))
  {
    var more, n := moves + [m], |moves|;
    assert more[..n] == moves;
    forall i: nat | i < n
      ensures JoinsAt(capacity, more, i, c, room) <==> JoinsAt(capacity, moves, i, c, room)
      ensures LeavesAt(capacity, more, i, c, room) <==> LeavesAt(capacity, moves, i, c, room)
    {
      assert more[..i] == moves[..i];
    }
    assert JoinsAt(capacity, more, n, c, room) <==> m == Join(c, room) && Enabled(Play(capacity, moves), m);
    assert LeavesAt(capacity, more, n, c, room) <==> m == Leave(c, room) && Enabled(Play(capacity, moves), m);
    if Stays(capacity, moves, c, room) && !LeavesAt(capacity, more, n, c, room) {
      var i :| JoinsAt(capacity, moves, i, c, room) && forall j :: i < j ==> !LeavesAt(capacity, moves, j, c, room);
      assert JoinsAt(capacity, more, i, c, room);
    }
  }

  lemma JoinedKept(capacity: nat, w: World, m: Move)
    requires Enabled(w, m) && !m.Connect? && !m.Join? && !m.Leave?
    ensures Step(capacity, w, m).index.joined == w.index.joined
  {
  }

  lemma JoinedStep(capacity: nat, w: World, m: Move, c: Id, room: string)
    requires w.phase.Keys == w.index.joined.Keys && Enabled(w, m)
    ensures var w' := Step(capacity, w, m);
      c in w'.index.joined && room in w'.index.joined[c]
      <==> m == Join(c, room) || (c in w.index.joined && room in w.index.joined[c] && m != Leave(c, room))
  {
    if !m.Connect? && !m.Join? && !m.Leave? {
      JoinedKept(capacity, w, m);
    }
  }

  /** In every interleaving a client's rooms are those it joined and did not leave since. */
  lemma {:induction false} JoinedIffStays(capacity: nat, moves: seq<Move>, c: Id, room: string)
    ensures var x := Play(capacity, moves).index;
      c in x.joined && room in x.joined[c] <==> Stays(capacity, moves, c, room)
    decreases |moves|
  {
    if moves != [] {
      var n := |moves| - 1;
      var before := moves[..n];
      JoinedIffStays(capacity, before, c, room);
      StaysGrows(capacity, before, moves[n], c, room);
      assert before + [moves[n]] == moves;
      SafePlay(capacity, before);
      if Enabled(Play(capacity, before), moves[n]) {
        JoinedStep(capacity, Play(capacity, before), moves[n], c, room);
      }
    }
  }

  /** A recipient still to be served has a closed channel exactly when it entered the room after its removal. */
  lemma ClosedRecipientIffLate(capacity: nat, moves: seq<Move>, c: Id)
    requires var w := Play(capacity, moves); w.loop.Sending? && c in w.loop.rest
    ensures var w := Play(capacity, moves);
      && w.loop.position < |w.mail.log|
      && (c in w.index.closed <==> (c, w.mail.log[w.loop.position].room) in w.index.late)
  {
    SafePlay(capacity, moves);
    var w := Play(capacity, moves);
    var room := w.mail.log[w.loop.position].room;
    if room == "" {
      assert c in w.index.clients;
      SafeNoLateGlobal(capacity, moves, c);
    } else {
      assert c in Members(w.index.rooms, room);
      assert c in w.index.joined;
    }
  }

  /** Nobody is in the room with the empty name. */
  lemma {:induction false} SafeNoLateGlobal(capacity: nat, moves: seq<Move>, c: Id)
    ensures (c, "") !in Play(capacity, moves).index.late
    decreases |moves|
  {
    if moves != [] {
      SafeNoLateGlobal(capacity, moves[..|moves| - 1], c);
    }
  }

  /** No Join comes after the client's removal. */
  ghost predicate Polite(capacity: nat, moves: seq<Move>) {
    forall i :: 0 <= i < |moves| && moves[i].Join? ==> moves[i].c !in Play(capacity, moves[..i]).index.closed
  }

  lemma PoliteBefore(capacity: nat, moves: seq<Move>)
    requires moves != [] && Polite(capacity, moves)
    ensures Polite(capacity, moves[..|moves| - 1])
  {
    var p := moves[..|moves| - 1];
    forall i | 0 <= i < |p| && p[i].Join? ensures p[i].c !in Play(capacity, p[..i]).index.closed {
      assert moves[i] == p[i] && moves[..i] == p[..i];
    }
  }

  lemma PoliteStep(capacity: nat, w: World, m: Move)
    requires Enabled(w, m) && w.index.late == {}
    requires (m.Join? ==> m.c !in w.index.closed) && (m.SendTo? ==> m.c !in w.index.closed)
    ensures Step(capacity, w, m).index.late == {} && Step(capacity, w, m).mail.sentToClosed == w.mail.sentToClosed
  {
  }

  /** Then no dispatch ever sends on a closed channel. ServeHTTP joins before registering, hence is polite. */
  lemma {:induction false} PoliteNeverPanics(capacity: nat, moves: seq<Move>)
    requires Polite(capacity, moves)
    ensures Play(capacity, moves).index.late == {} && !Play(capacity, moves).mail.sentToClosed
    decreases |moves|
  {
    if moves != [] {
      var n := |moves| - 1;
      var p, m := moves[..n], moves[n];
      PoliteBefore(capacity, moves);
      PoliteNeverPanics(capacity, p);
      var w := Play(capacity, p);
      if Enabled(w, m) {
        if m.SendTo? {
          ClosedRecipientIffLate(capacity, p, m.c);
        }
        PoliteStep(capacity, w, m);
      }
    }
  }

  /** Joins that all precede the registration of their client, as ServeHTTP makes them. */
  ghost predicate JoinsBeforeRegistration(moves: seq<Move>) {
    forall i, j :: 0 <= i < j < |moves| && moves[i].Register? && moves[j].Join? ==> moves[i].c != moves[j].c
  }

  ghost predicate WasRegistered(moves: seq<Move>, c: Id) {
    exists i :: 0 <= i < |moves| && moves[i] == Register(c)
  }

  /** Past its registration: with the loop, in the hub, or removed. */
  predicate Admitted(w: World, c: Id) {
    || c in w.index.clients || c in w.index.closed || w.loop == Registering(c)
    || (c in w.phase && w.phase[c] in {Serving, Leaving, Gone})
  }

  lemma AdmittedStep(capacity: nat, w: World, m: Move, c: Id)
    requires Safe(w) && Enabled(w, m) && Admitted(Step(capacity, w, m), c)
    ensures Admitted(w, c) || m == Register(c)
  {
    if OnIndex(m) {
      AdmittedOnIndex(capacity, w, m, c);
    }
  }

  lemma AdmittedOnIndex(capacity: nat, w: World, m: Move, c: Id)
    requires Safe(w) && Enabled(w, m) && OnIndex(m) && Admitted(Step(capacity, w, m), c)
    ensures Admitted(w, c)
  {
  }

  lemma {:induction false} AdmittedWasRegistered(capacity: nat, moves: seq<Move>, c: Id)
    requires Admitted(Play(capacity, moves), c)
    ensures WasRegistered(moves, c)
    decreases |moves|
  {
    if moves != [] {
      var n := |moves| - 1;
      var p := moves[..n];
      var w := Play(capacity, p);
      SafePlay(capacity, p);
      if Enabled(w, moves[n]) {
        AdmittedStep(capacity, w, moves[n], c);
      }
      if Admitted(w, c) {
        AdmittedWasRegistered(capacity, p, c);
        var i :| 0 <= i < n && p[i] == Register(c);
        assert moves[i] == Register(c);
      } else {
        assert moves[n] == Register(c);
      }
    }
  }

  /** Main result: with Join only before registration, no interleaving sends on a closed channel. */
  lemma ServeHTTPNeverPanics(capacity: nat, moves: seq<Move>)
    requires JoinsBeforeRegistration(moves)
    ensures !Play(capacity, moves).mail.sentToClosed && !Play(capacity, moves).index.closedTwice
    ensures var w := Play(capacity, moves); forall c :: Enabled(w, SendTo(c)) ==> c !in w.index.closed
  {
    forall i | 0 <= i < |moves| && moves[i].Join? ensures moves[i].c !in Play(capacity, moves[..i]).index.closed {
      var c := moves[i].c;
      assert forall k :: 0 <= k < i ==> moves[..i][k] == moves[k];
      assert !WasRegistered(moves[..i], c);
      if Admitted(Play(capacity, moves[..i]), c) {
        AdmittedWasRegistered(capacity, moves[..i], c);
      }
    }
    PoliteNeverPanics(capacity, moves);
    SafePlay(capacity, moves);
    var w := Play(capacity, moves);
    forall c | Enabled(w, SendTo(c)) ensures c !in w.index.closed {
      ClosedRecipientIffLate(capacity, moves, c);
    }
  }

  /** The hub after client c has come and gone. */
  function ComeAndGone(c: Id): World {
    World(Index({}, map[], map[c := {}], {c}, {}, false),
          Mail(map[c := []], map[c := []], [], [], map[], [], [], false), Idle, map[c := Gone], false)
  }

  /** The hub with client c registered. */
  function Present(c: Id): World {
    ComeAndGone(c).(index := Index({c}, map[], map[c := {}], {}, {}, false), phase := map[c := Serving])
  }

  lemma Comes(capacity: nat, c: Id)
    ensures Play(capacity, [Connect(c), Start, Register(c), Insert]) == Present(c)
  {
    var x := Index({}, map[], map[c := {}], {}, {}, false);
    var m := Present(c).mail;
    var w1 := World(x, m, NotStarted, map[c := Created], false);
    var w2 := w1.(loop := Idle);
    var w3 := World(x, m, Registering(c), map[c := Serving], false);
    assert {} + {c} == {c};
    var script := [Connect(c), Start, Register(c), Insert];
    PlayScript(capacity, script, INITIAL, [INITIAL, w1, w2, w3, Present(c)], []);
    assert [] + script == script;
  }

  lemma Goes(capacity: nat, c: Id, before: seq<Move>)
    requires Play(capacity, before) == Present(c)
    ensures Play(capacity, before + [ReadFails(c), Unregister(c), Remove]) == ComeAndGone(c)
  {
    var w := Present(c);
    var w1 := w.(phase := map[c := Leaving]);
    var w2 := w.(phase := map[c := Gone], loop := Removing(c));
    assert RemoveClient(w.index, c) == ComeAndGone(c).index by {
      assert {c} - {c} == {} && {} + {c} == {c};
    }
    PlayScript(capacity, [ReadFails(c), Unregister(c), Remove], w, [w, w1, w2, ComeAndGone(c)], before);
  }

  /** Politeness is needed: a client that joined a room after its removal would make the next message to that room a
      send on a closed channel. ServeHTTP, the only maker of clients, hands its client to nobody who could. */
  lemma LateJoinPanics(capacity: nat, c: Id, room: string, data: string)
    requires room != ""
    ensures exists moves :: Join(c, room) in moves && Play(capacity, moves).mail.sentToClosed
  {
    var first := [Connect(c), Start, Register(c), Insert] + [ReadFails(c), Unregister(c), Remove];
    var second := [Join(c, room), Publish(Envelope(room, data)), Receive, BeginDispatch, SendTo(c)];
    Comes(capacity, c);
    Goes(capacity, c, [Connect(c), Start, Register(c), Insert]);
    SendsLate(capacity, c, room, data, first);
    assert Join(c, room) in first + second;
  }

  /** The hub after client c has come and gone and then joined room. */
  function CameBack(c: Id, room: string): World
    requires room != ""
  {
    ComeAndGone(c).(index := JoinRoom(ComeAndGone(c).index, c, room))
  }

  lemma JoinsLate(capacity: nat, c: Id, room: string, before: seq<Move>)
    requires room != "" && Play(capacity, before) == ComeAndGone(c)
    ensures Play(capacity, before + [Join(c, room)]) == CameBack(c, room)
    ensures Targets(CameBack(c, room).index.clients, CameBack(c, room).index.rooms, room) == {c}
  {
  }

  lemma PublishesLate(capacity: nat, w: World, env: Envelope, before: seq<Move>)
    requires Play(capacity, before) == w && w.mail.pending == [] && w.loop == Idle
    ensures var w1 := Play(capacity, before + [Publish(env)]);
      && w1.index == w.index && w1.phase == w.phase && w1.loop == Idle && w1.mail.pending == [env]
      && w1.mail.queue == w.mail.queue && w1.mail.taken == w.mail.taken
  {
    PlayScript(capacity, [Publish(env)], w, [w, Step(capacity, w, Publish(env))], before);
  }

  lemma SendsLate(capacity: nat, c: Id, room: string, data: string, before: seq<Move>)
    requires room != "" && Play(capacity, before) == ComeAndGone(c)
    ensures Play(capacity, before + [Join(c, room), Publish(Envelope(room, data)), Receive, BeginDispatch, SendTo(c)]).mail.sentToClosed
  {
    var env := Envelope(room, data);
    var p := before + [Join(c, room)];
    JoinsLate(capacity, c, room, before);
    PublishesLate(capacity, CameBack(c, room), env, p);
    var w := Play(capacity, p + [Publish(env)]);
    ReceivesLate(capacity, c, env, w, Step(capacity, w, Receive), p + [Publish(env)]);
    assert p + [Publish(env)] + [Receive, BeginDispatch, SendTo(c)]
        == before + [Join(c, room), Publish(env), Receive, BeginDispatch, SendTo(c)];
  }

  lemma ReceivesLate(capacity: nat, c: Id, env: Envelope, w: World, w1: World, before: seq<Move>)
    requires Play(capacity, before) == w && Known(w, c) && c in w.index.closed
    requires w.loop == Idle && w.mail.pending == [env] && Targets(w.index.clients, w.index.rooms, env.room) == {c}
    requires w1 == Step(capacity, w, Receive)
    ensures Play(capacity, before + [Receive, BeginDispatch, SendTo(c)]).mail.sentToClosed
  {
    var w2 := Step(capacity, w1, BeginDispatch);
    var w3 := Step(capacity, w2, SendTo(c));
    PlayScript(capacity, [Receive, BeginDispatch, SendTo(c)], w, [w, w1, w2, w3], before);
  }

  /** A script whose every move is enabled plays out as written. */
  lemma {:induction false} PlayScript(capacity: nat, script: seq<Move>, start: World, ws: seq<World>, before: seq<Move>)
    requires |ws| == |script| + 1 && ws[0] == start == Play(capacity, before)
    requires forall i :: 0 <= i < |script| ==> Enabled(ws[i], script[i]) && ws[i + 1] == Step(capacity, ws[i], script[i])
    ensures Play(capacity, before + script) == ws[|script|]
    decreases |script|
  {
    if script == [] {
      assert before + script == before;
    } else {
      var n := |script| - 1;
      PlayScript(capacity, script[..n], start, ws[..n + 1], before);
      assert (before + script)[..|before| + n] == before + script[..n];
    }
  }
}
