/** The room index of the WebSocket hub, irmik/ws/ws.go: named sets of clients, kept without empty rooms. */
module WsRooms {

  type Rooms<C> = map<string, set<C>>

  /** A hub message; the empty room addresses all clients. */
  datatype Envelope = Envelope(room: string, data: string)

  function Members<C>(rooms: Rooms<C>, room: string): set<C> {
    if room in rooms then rooms[room] else {}
  }

  function Enter<C>(rooms: Rooms<C>, c: C, room: string): Rooms<C> {
    rooms[room := Members(rooms, room) + {c}]
  }

  function Exit<C>(rooms: Rooms<C>, c: C, room: string): Rooms<C> {
    if room !in rooms then rooms
    else if rooms[room] - {c} == {} then rooms - {room}
    else rooms[room := rooms[room] - {c}]
  }

  /** c leaves every room of the given names. */
  function ExitAll<C>(rooms: Rooms<C>, c: C, names: set<string>): Rooms<C> {
    map r | r in rooms && !(r in names && rooms[r] - {c} == {}) :: if r in names then rooms[r] - {c} else rooms[r]
  }

  function Targets<C>(clients: set<C>, rooms: Rooms<C>, room: string): set<C> {
    if room == "" then clients else Members(rooms, room)
  }

  ghost predicate NoEmptyRoom<C>(rooms: Rooms<C>) {
    forall r :: r in rooms ==> rooms[r] != {}
  }

  // ----- The hub as the program keeps it -----

  class Client {
    var rooms: set<string>
    var send: seq<string>
    var closed: bool
    const sendBuffer: nat

    constructor (sendBuffer: nat)
      ensures rooms == {} && send == [] && !closed && this.sendBuffer == sendBuffer
    {
      rooms, send, closed, this.sendBuffer := {}, [], false, sendBuffer;
    }
  }

  class Hub {
    var clients: set<Client>
    var rooms: Rooms<Client>

    constructor ()
      ensures clients == {} && rooms == map[]
    {
      clients, rooms := {}, map[];
    }

    method Register(c: Client)
      modifies `clients
      ensures clients == old(clients) + {c}
    {
      clients := clients + {c};
    }

    method JoinRoom(c: Client, room: string)
      modifies `rooms, c`rooms
      ensures rooms == Enter(old(rooms), c, room) && c.rooms == old(c.rooms) + {room}
    {
      var m := if room in rooms then rooms[room] else {};
      rooms := rooms[room := m + {c}];
      c.rooms := c.rooms + {room};
    }

    method LeaveRoom(c: Client, room: string)
      modifies `rooms, c`rooms
      ensures rooms == Exit(old(rooms), c, room) && c.rooms == old(c.rooms) - {room}
    {
      RemoveFrom(c, room);
      c.rooms := c.rooms - {room};
    }

    /** Take c out of one room and drop the room if that empties it. */
    method RemoveFrom(c: Client, room: string)
      modifies `rooms
      ensures rooms == Exit(old(rooms), c, room)
    {
      if room in rooms {
        var m := rooms[room] - {c};
        rooms := rooms[room := m];
        if m == {} {
          rooms := rooms - {room};
        }
      }
    }

    /** Idempotent: only a registered client is taken out and has its channel closed. */
    method RemoveClient(c: Client)
      requires NoEmptyRoom(rooms) && (c in clients ==> !c.closed)
      modifies `clients, `rooms, c`closed
      ensures if c in old(clients)
        then clients == old(clients) - {c} && rooms == ExitAll(old(rooms), c, c.rooms) && c.closed
        else clients == old(clients) && rooms == old(rooms) && c.closed == old(c.closed)
      ensures NoEmptyRoom(rooms)
    {
      if c !in clients {
        return;
      }
      clients := clients - {c};
      LeaveAll(c);
      c.closed := true;
    }

    /** The loop of removeClient over the client's rooms. */
    method LeaveAll(c: Client)
      requires NoEmptyRoom(rooms)
      modifies `rooms
      ensures rooms == ExitAll(old(rooms), c, c.rooms) && NoEmptyRoom(rooms)
    {
      var names := c.rooms;
      var pending := names;
      ExitNone(rooms, c, names - pending);
      while pending != {}
        invariant pending <= names
        invariant rooms == ExitAll(old(rooms), c, names - pending)
        decreases |pending|
      {
        var room :| room in pending;
        ExitAllOneMore(old(rooms), c, names - pending, room);
        assert names - pending + {room} == names - (pending - {room});
        RemoveFrom(c, room);
        pending := pending - {room};
      }
      assert names - pending == names;
    }

    /** One pass over the targets: each is offered the message once, a full queue drops it, and nobody else gets it. */
    method Dispatch(env: Envelope)
      requires forall c: Client ::
        (if env.room == "" then c in clients else env.room in rooms && c in rooms[env.room]) ==> !c.closed
      modifies Targets(clients, rooms, env.room)
      ensures forall c: Client :: old(allocated(c)) ==>
        if (if env.room == "" then c in clients else env.room in rooms && c in rooms[env.room])
        then c.send == (if |old(c.send)| < c.sendBuffer then old(c.send) + [env.data] else old(c.send))
             && c.closed == old(c.closed) && c.rooms == old(c.rooms)
        else unchanged(c)
    {
      var targets := Targets(clients, rooms, env.room);
      var pending := targets;
      while pending != {}
        invariant pending <= targets
        invariant forall c :: c in targets ==> c.closed == old(c.closed) && c.rooms == old(c.rooms)
        invariant forall c :: c in pending ==> c.send == old(c.send)
        invariant forall c :: c in targets - pending ==>
          c.send == if |old(c.send)| < c.sendBuffer then old(c.send) + [env.data] else old(c.send)
        decreases |pending|
      {
        var c :| c in pending;
        if |c.send| < c.sendBuffer {
          c.send := c.send + [env.data];
        }
        pending := pending - {c};
      }
    }
  }

  lemma ExitNone<C>(rooms: Rooms<C>, c: C, names: set<string>)
    requires names == {}
    ensures ExitAll(rooms, c, names) == rooms
  {
  }

  lemma ExitAllOneMore<C>(rooms: Rooms<C>, c: C, names: set<string>, room: string)
    requires NoEmptyRoom(rooms) && room !in names
    ensures Exit(ExitAll(rooms, c, names), c, room) == ExitAll(rooms, c, names + {room})
  {
  }

  /** Leaving all of one's rooms at once is leaving them one by one, in any order. */
  lemma {:induction false} ExitAllIsRepeatedExit<C>(rooms: Rooms<C>, c: C, names: seq<string>)
    requires NoEmptyRoom(rooms) && forall i, j :: 0 <= i < j < |names| ==> names[i] != names[j]
    ensures ExitEach(rooms, c, names) == ExitAll(rooms, c, set r | r in names)
    decreases |names|
  {
    if names == [] {
      assert ExitAll(rooms, c, {}) == rooms;
    } else {
      var n := |names| - 1;
      ExitAllIsRepeatedExit(rooms, c, names[..n]);
      ExitAllOneMore(rooms, c, (set r | r in names[..n]), names[n]);
      assert (set r | r in names[..n]) + {names[n]} == set r | r in names;
    }
  }

  function ExitEach<C>(rooms: Rooms<C>, c: C, names: seq<string>): Rooms<C> {
    if names == [] then rooms else Exit(ExitEach(rooms, c, names[..|names| - 1]), c, names[|names| - 1])
  }
}
