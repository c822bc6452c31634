/** The event fan-out hub of irmik/sse/hub.go. Channels are bounded and a send never waits. Subscribing and
    unsubscribing hold the write lock, a broadcast holds the read lock over all its sends, so any number of
    broadcasts may be under way together. */
module SseHub {
  import opened Sse

  const DEFAULT_BUFFER: nat := 16

  function Capacity(buf: int): (n: nat)
    ensures n >= 1 && (buf >= 1 ==> n == buf)
  {
    if buf < 1 then DEFAULT_BUFFER else buf
  }

  /** A send that does not wait: kept if there is room, dropped otherwise. */
  function Offer<T>(queue: seq<T>, capacity: nat, x: T): seq<T> {
    if |queue| < capacity then queue + [x] else queue
  }

  // ----- The hub's methods, each alone -----

  class Channel {
    const capacity: nat
    var queue: seq<Event>
    var closed: bool

    constructor (capacity: nat)
      ensures this.capacity == capacity && queue == [] && !closed
    {
      this.capacity := capacity;
      queue, closed := [], false;
    }

    /** Sending on a closed channel panics. */
    method TrySend(e: Event)
      requires !closed
      modifies `queue
      ensures queue == Offer(old(queue), capacity, e)
    {
      if |queue| < capacity {
        queue := queue + [e];
      }
    }

    /** Closing a closed channel panics. */
    method Close()
      requires !closed
      modifies `closed
      ensures closed
    {
      closed := true;
    }
  }

  class Hub {
    var subs: set<Channel>

    ghost predicate Valid()
      reads this, subs
    {
      forall ch :: ch in subs ==> !ch.closed
    }

    constructor ()
      ensures Valid() && subs == {}
    {
      subs := {};
    }

    method Subscribe(buf: int) returns (ch: Channel)
      requires Valid()
      modifies this
      ensures Valid() && fresh(ch) && subs == old(subs) + {ch}
      ensures ch.capacity == (if buf < 1 then 16 else buf) && ch.queue == [] && !ch.closed
    {
      var size := buf;
      if size < 1 {
        size := DEFAULT_BUFFER;
      }
      ch := new Channel(size);
      subs := subs + {ch};
    }

    /** Any channel may be given, also one removed before. */
    method Unsubscribe(ch: Channel)
      requires Valid()
      modifies this, ch`closed
      ensures Valid() && subs == old(subs) - {ch}
      ensures ch.closed == (old(ch.closed) || ch in old(subs))
    {
      if ch in subs {
        subs := subs - {ch};
        ch.Close();
      }
    }

    /** Whatever order the map yields its keys in, every subscriber is offered the event once. */
    method Broadcast(e: Event)
      requires Valid()
      modifies subs`queue
      ensures Valid() && subs == old(subs)
      ensures forall ch :: ch in subs ==> ch.queue == Offer(old(ch.queue), ch.capacity, e)
    {
      var left := subs;
      while left != {}
        invariant left <= subs && subs == old(subs) && Valid()
        invariant forall ch :: ch in left ==> ch.queue == old(ch.queue)
        invariant forall ch :: ch in subs - left ==> ch.queue == Offer(old(ch.queue), ch.capacity, e)
      {
        var ch :| ch in left;
        ch.TrySend(e);
        left := left - {ch};
      }
    }
  }

  // ----- All of them together -----

  type Id = nat

  /** One call of Broadcast, numbered in the order in which the calls got the lock. */
  datatype Call = Call(who: Id, serial: nat, event: Event)

  /** A channel with what its reader has taken and what it was offered in vain. */
  datatype Chan = Chan(capacity: nat, queue: seq<Call>, closed: bool, taken: seq<Call>, missed: seq<Call>)

  /** A call under way: the subscribers it has yet to offer the event to. */
  datatype Underway = Underway(call: Call, left: set<nat>)

  /** A call with the subscribers there were when it got the lock. */
  datatype Entry = Entry(call: Call, audience: set<nat>)

  datatype World = World(
    chans: seq<Chan>,
    subs: set<nat>,
    active: map<Id, Underway>,
    log: seq<Entry>,
    panicked: bool)

  datatype Move =
    | Subscribe(buf: int)
    | Unsubscribe(ch: nat)
    | Begin(who: Id, event: Event)
    | Send(who: Id, ch: nat)
    | End(who: Id)
    | Take(ch: nat)

  const START: World := World([], {}, map[], [], false)

  predicate Enabled(w: World, m: Move) {
    match m
    case Subscribe(_) => w.active == map[]
    case Unsubscribe(ch) => w.active == map[] && ch < |w.chans|
    case Begin(who, _) => who !in w.active
    case Send(who, ch) => who in w.active && ch in w.active[who].left && ch < |w.chans|
    case End(who) => who in w.active && w.active[who].left == {}
    case Take(ch) => ch < |w.chans| && w.chans[ch].queue != []
  }

  function Offered(c: Chan, call: Call): Chan {
    c.(queue := Offer(c.queue, c.capacity, call),
       missed := if |c.queue| < c.capacity then c.missed else c.missed + [call])
  }

  function Step(w: World, m: Move): World
    requires Enabled(w, m)
  {
    match m
    case Subscribe(buf) =>
      w.(chans := w.chans + [Chan(Capacity(buf), [], false, [], [])], subs := w.subs + {|w.chans|})
    case Unsubscribe(ch) =>
      if ch !in w.subs then w else
      w.(subs := w.subs - {ch}, chans := w.chans[ch := w.chans[ch].(closed := true)],
         panicked := w.panicked || w.chans[ch].closed)
    case Begin(who, event) =>
      var call := Call(who, |w.log|, event);
      w.(active := w.active[who := Underway(call, w.subs)], log := w.log + [Entry(call, w.subs)])
    case Send(who, ch) =>
      var u := w.active[who];
      w.(active := w.active[who := u.(left := u.left - {ch})],
         chans := w.chans[ch := Offered(w.chans[ch], u.call)],
         panicked := w.panicked || w.chans[ch].closed)
    case End(who) => w.(active := w.active - {who})
    case Take(ch) =>
      var c := w.chans[ch];
      w.(chans := w.chans[ch := c.(queue := c.queue[1..], taken := c.taken + [c.queue[0]])])
  }

  /** Moves that cannot be made are passed over. */
  function Next(w: World, m: Move): World { if Enabled(w, m) then Step(w, m) else w }

  function Play(moves: seq<Move>): World
    decreases |moves|
  {
    if moves == [] then START else Next(Play(moves[..|moves| - 1]), moves[|moves| - 1])
  }

  // ----- What every step keeps -----

  /** All the calls a channel accepted, oldest first. */
  function Accepted(c: Chan): seq<Call> { c.taken + c.queue }

  /** Open and subscribed are the same, and no channel is over-full. */
  ghost predicate OpenIffSubscribed(w: World) {
    && (forall ch :: ch in w.subs ==> ch < |w.chans|)
    && (forall ch: nat :: ch < |w.chans| ==> (ch in w.subs <==> !w.chans[ch].closed))
    && (forall ch: nat :: ch < |w.chans| ==> 1 <= w.chans[ch].capacity && |w.chans[ch].queue| <= w.chans[ch].capacity)
    && !w.panicked
  }

  /** Calls under way are the latest of their goroutines and are offered to current subscribers only. */
  ghost predicate UnderwayIsLatest(w: World) {
    && (forall k: nat :: k < |w.log| ==> w.log[k].call.serial == k && forall ch :: ch in w.log[k].audience ==> ch < |w.chans|)
    && (forall who :: who in w.active ==>
          var u := w.active[who];
          && u.call.who == who && u.left <= w.subs && u.call.serial < |w.log| && w.log[u.call.serial].call == u.call
          && u.left <= w.log[u.call.serial].audience
          && forall k: nat :: u.call.serial < k < |w.log| ==> w.log[k].call.who != who)
  }

  predicate Pending(w: World, call: Call, ch: nat) {
    call.who in w.active && w.active[call.who].call == call && ch in w.active[call.who].left
  }

  /** A channel was offered exactly the calls of the log it was in the audience of, those still to come aside, and
      either accepted or missed each. */
  ghost predicate OfferedOnce(w: World, ch: nat)
    requires ch < |w.chans|
  {
    var c := w.chans[ch];
    && (forall x :: x in Accepted(c) || x in c.missed ==> x.serial < |w.log| && w.log[x.serial].call == x)
    && (forall k: nat :: k < |w.log| ==>
          var x := w.log[k].call;
          (x in Accepted(c) || x in c.missed) <==> (ch in w.log[k].audience && !Pending(w, x, ch)))
    && (forall x :: x in c.missed ==> x !in Accepted(c))
  }

  /** Calls of one goroutine are accepted in the order in which they were made. */
  ghost predicate InOrder(s: seq<Call>) {
    forall i, j :: 0 <= i < j < |s| && s[i].who == s[j].who ==> s[i].serial < s[j].serial
  }

  ghost predicate Delivery(w: World) {
    forall ch: nat :: ch < |w.chans| ==> OfferedOnce(w, ch) && InOrder(Accepted(w.chans[ch]))
  }

  ghost predicate Inv(w: World) {
    OpenIffSubscribed(w) && UnderwayIsLatest(w) && Delivery(w)
  }

  lemma StepSubscribe(w: World, buf: int)
    requires Inv(w) && Enabled(w, Subscribe(buf))
    ensures Inv(Step(w, Subscribe(buf)))
  {
  }

  lemma StepUnsubscribe(w: World, ch: nat)
    requires Inv(w) && Enabled(w, Unsubscribe(ch))
    ensures Inv(Step(w, Unsubscribe(ch)))
  {
  }

  lemma StepBegin(w: World, who: Id, event: Event)
    requires Inv(w) && Enabled(w, Begin(who, event))
    ensures Inv(Step(w, Begin(who, event)))
  {
    var w' := Step(w, Begin(who, event));
    forall ch: nat | ch < |w'.chans| ensures OfferedOnce(w', ch) && InOrder(Accepted(w'.chans[ch])) {
      assert OfferedOnce(w, ch);
    }
  }

  lemma SendInOrder(w: World, who: Id, ch: nat)
    requires Inv(w) && Enabled(w, Send(who, ch))
    ensures var c, c' := w.chans[ch], Step(w, Send(who, ch)).chans[ch];
      && Accepted(c') == (if |c.queue| < c.capacity then Accepted(c) + [w.active[who].call] else Accepted(c))
      && InOrder(Accepted(c'))
  {
  }

  lemma SendOffers(w: World, who: Id, ch: nat)
    requires Inv(w) && Enabled(w, Send(who, ch))
    ensures OfferedOnce(Step(w, Send(who, ch)), ch)
  {
  }

  lemma SendSparesOthers(w: World, who: Id, ch: nat, d: nat)
    requires Inv(w) && Enabled(w, Send(who, ch)) && d < |w.chans| && d != ch
    ensures OfferedOnce(Step(w, Send(who, ch)), d)
  {
  }

  lemma StepSend(w: World, who: Id, ch: nat)
    requires Inv(w) && Enabled(w, Send(who, ch))
    ensures Inv(Step(w, Send(who, ch)))
  {
    var w' := Step(w, Send(who, ch));
    assert OpenIffSubscribed(w');
    assert UnderwayIsLatest(w');
    SendInOrder(w, who, ch);
    SendOffers(w, who, ch);
    forall d: nat | d < |w'.chans| && d != ch ensures OfferedOnce(w', d) && InOrder(Accepted(w'.chans[d])) {
      SendSparesOthers(w, who, ch, d);
    }
  }

  lemma StepEnd(w: World, who: Id)
    requires Inv(w) && Enabled(w, End(who))
    ensures Inv(Step(w, End(who)))
  {
  }

  lemma StepTake(w: World, ch: nat)
    requires Inv(w) && Enabled(w, Take(ch))
    ensures Inv(Step(w, Take(ch)))
  {
    var w' := Step(w, Take(ch));
    assert Accepted(w'.chans[ch]) == Accepted(w.chans[ch]);
    forall d: nat | d < |w'.chans| ensures OfferedOnce(w', d) && InOrder(Accepted(w'.chans[d])) {
      assert OfferedOnce(w, d);
    }
  }

  lemma {:induction false} InvPlay(moves: seq<Move>)
    ensures Inv(Play(moves))
    decreases |moves|
  {
    if moves != [] {
      var w, m := Play(moves[..|moves| - 1]), moves[|moves| - 1];
      InvPlay(moves[..|moves| - 1]);
      if Enabled(w, m) {
        match m
        case Subscribe(buf) => StepSubscribe(w, buf);
        case Unsubscribe(ch) => StepUnsubscribe(w, ch);
        case Begin(who, event) => StepBegin(w, who, event);
        case Send(who, ch) => StepSend(w, who, ch);
        case End(who) => StepEnd(w, who);
        case Take(ch) => StepTake(w, ch);
      }
    }
  }

  // ----- Over whole runs -----

  /** Main result: in every interleaving no event is sent on a closed channel and no channel is closed twice; a
      channel accepts only calls made while it was subscribed, each once, and those of one goroutine in the order
      in which they were made. */
  lemma EveryRunDelivers(moves: seq<Move>, ch: nat)
    requires ch < |Play(moves).chans|
    ensures var w := Play(moves);
      && !w.panicked && (ch in w.subs <==> !w.chans[ch].closed)
      && InOrder(Accepted(w.chans[ch]))
      && (forall m :: Enabled(w, m) && m.Send? ==> !w.chans[m.ch].closed)
      && (forall m :: Enabled(w, m) && m.Unsubscribe? && m.ch in w.subs ==> !w.chans[m.ch].closed)
      && (forall x :: x in Accepted(w.chans[ch]) ==>
            x.serial < |w.log| && w.log[x.serial].call == x && ch in w.log[x.serial].audience)
      && forall i, j :: 0 <= i < j < |Accepted(w.chans[ch])| ==> Accepted(w.chans[ch])[i] != Accepted(w.chans[ch])[j]
  {
    InvPlay(moves);
    var w := Play(moves);
    assert OfferedOnce(w, ch);
  }

  /** Call x is about to be offered to ch, whose buffer is full. */
  predicate OfferedAtFull(w: World, x: Call, ch: nat) {
    Enabled(w, Send(x.who, ch)) && w.active[x.who].call == x && |w.chans[ch].queue| >= w.chans[ch].capacity
  }

  /** At some moment of the run x was offered to ch and found its buffer full. */
  ghost predicate FoundFull(moves: seq<Move>, x: Call, ch: nat) {
    exists n :: 0 <= n < |moves| && moves[n] == Send(x.who, ch) && OfferedAtFull(Play(moves[..n]), x, ch)
  }

  function MissedBy(w: World, ch: nat): seq<Call> { if ch < |w.chans| then w.chans[ch].missed else [] }

  lemma MissStep(w: World, m: Move, x: Call, ch: nat)
    requires Inv(w)
    ensures x in MissedBy(Next(w, m), ch)
      <==> x in MissedBy(w, ch) || (m == Send(x.who, ch) && OfferedAtFull(w, x, ch))
  {
  }

  lemma {:induction false} MissedIffFoundFull(moves: seq<Move>, x: Call, ch: nat)
    ensures x in MissedBy(Play(moves), ch) <==> FoundFull(moves, x, ch)
    decreases |moves|
  {
    if moves != [] {
      var n := |moves| - 1;
      var p := moves[..n];
      MissedIffFoundFull(p, x, ch);
      InvPlay(p);
      MissStep(Play(p), moves[n], x, ch);
      assert forall k :: 0 <= k < n ==> p[k] == moves[k] && p[..k] == moves[..k];
    }
  }

  /** Main result: of the calls made while it was subscribed, those still under way aside, a subscriber accepts exactly
      those that did not find its buffer full when they were offered. */
  lemma AllArriveUnlessFull(moves: seq<Move>, ch: nat, k: nat)
    requires ch < |Play(moves).chans| && k < |Play(moves).log|
    ensures var w := Play(moves); var x := w.log[k].call;
      x in Accepted(w.chans[ch]) <==> ch in w.log[k].audience && !Pending(w, x, ch) && !FoundFull(moves, x, ch)
  {
    InvPlay(moves);
    var w := Play(moves);
    MissedIffFoundFull(moves, w.log[k].call, ch);
    assert OfferedOnce(w, ch);
  }

  lemma {:induction false} PlayJoins(moves: seq<Move>, m: Move)
    ensures Play(moves + [m]) == Next(Play(moves), m)
  {
  }

  ghost predicate Crossed(w: World, x: Call, y: Call) {
    |w.chans| == 2 && x != y && Accepted(w.chans[0]) == [x, y] && Accepted(w.chans[1]) == [y, x]
  }

  /** Both calls are under way; the first subscriber has been offered both, in order, and the second nothing. */
  function HalfSent(a: Event, b: Event): World {
    var x, y, c := Call(0, 0, a), Call(1, 1, b), Chan(2, [], false, [], []);
    World([c.(queue := [x, y]), c], {0, 1}, map[0 := Underway(x, {1}), 1 := Underway(y, {1})],
          [Entry(x, {0, 1}), Entry(y, {0, 1})], false)
  }

  lemma GetsHalfSent(a: Event, b: Event) returns (moves: seq<Move>)
    ensures Play(moves) == HalfSent(a, b)
  {
    var x, y, c := Call(0, 0, a), Call(1, 1, b), Chan(2, [], false, [], []);
    moves := [Subscribe(2), Subscribe(2), Begin(0, a), Begin(1, b)];
    TwoUnderway(a, b);
    assert {0, 1} - {0} == {1};
    assert Offer([], 2, x) == [x] && Offer([x], 2, y) == [x, y];
    var w5 := HalfSent(a, b).(chans := [c.(queue := [x]), c], active := map[0 := Underway(x, {1}), 1 := Underway(y, {0, 1})]);
    PlayJoins(moves, Send(0, 0));
    assert Next(Play(moves), Send(0, 0)) == w5;
    PlayJoins(moves + [Send(0, 0)], Send(1, 0));
    assert Next(w5, Send(1, 0)) == HalfSent(a, b);
    moves := moves + [Send(0, 0)] + [Send(1, 0)];
  }

  /** Two goroutines, two subscribers: one sees the events in one order, the other in the other. There is no
      common order of delivery. */
  lemma OrdersMayDiffer(a: Event, b: Event)
    ensures exists moves, x, y :: Crossed(Play(moves), x, y)
  {
    var x, y, c := Call(0, 0, a), Call(1, 1, b), Chan(2, [], false, [], []);
    var half := GetsHalfSent(a, b);
    assert {1} - {1} == {};
    assert Offer([], 2, y) == [y] && Offer([y], 2, x) == [y, x];
    PlayJoins(half, Send(1, 1));
    var w7 := Next(HalfSent(a, b), Send(1, 1));
    assert w7.chans == [c.(queue := [x, y]), c.(queue := [y])];
    PlayJoins(half + [Send(1, 1)], Send(0, 1));
    assert Next(w7, Send(0, 1)).chans == [c.(queue := [x, y]), c.(queue := [y, x])];
    assert Crossed(Play(half + [Send(1, 1)] + [Send(0, 1)]), x, y);
  }

  lemma TwoUnderway(a: Event, b: Event)
    ensures var x, y, c := Call(0, 0, a), Call(1, 1, b), Chan(2, [], false, [], []);
      Play([Subscribe(2), Subscribe(2), Begin(0, a), Begin(1, b)])
      == World([c, c], {0, 1}, map[0 := Underway(x, {0, 1}), 1 := Underway(y, {0, 1})],
               [Entry(x, {0, 1}), Entry(y, {0, 1})], false)
  {
    var c := Chan(2, [], false, [], []);
    PlayJoins([], Subscribe(2));
    assert Play([Subscribe(2)]) == World([c], {0}, map[], [], false);
    PlayJoins([Subscribe(2)], Subscribe(2));
    var m2 := [Subscribe(2), Subscribe(2)];
    assert Play(m2) == World([c, c], {0, 1}, map[], [], false);
    PlayJoins(m2, Begin(0, a));
    PlayJoins(m2 + [Begin(0, a)], Begin(1, b));
    assert m2 + [Begin(0, a)] + [Begin(1, b)] == [Subscribe(2), Subscribe(2), Begin(0, a), Begin(1, b)];
  }

  // ----- Who is in the audience of a call -----

  /** The n-th move is the call that got the lock as k-th; its audience are the channels open at that moment. */
  ghost predicate BegunAt(moves: seq<Move>, log: seq<Entry>, n: nat, k: nat) {
    && n < |moves| && k < |log| && moves[n] == Begin(log[k].call.who, log[k].call.event)
    && Enabled(Play(moves[..n]), moves[n])
    && forall ch: nat :: ch in log[k].audience <==> ch < |Play(moves[..n]).chans| && !Play(moves[..n]).chans[ch].closed
  }

  lemma LogStep(w: World, m: Move)
    requires Inv(w) && Enabled(w, m)
    ensures var log := Step(w, m).log;
      if m.Begin? then
        && |log| == |w.log| + 1 && log[..|w.log|] == w.log
        && log[|w.log|].call.who == m.who && log[|w.log|].call.event == m.event
        && forall ch: nat :: ch in log[|w.log|].audience <==> ch < |w.chans| && !w.chans[ch].closed
      else log == w.log
  {
  }

  /** Main result: in every run each call in the record was made by one step, and its audience are exactly the channels
      open at that step. */
  lemma {:induction false} AudienceIsOpen(moves: seq<Move>, k: nat) returns (n: nat)
    requires k < |Play(moves).log|
    ensures BegunAt(moves, Play(moves).log, n, k)
    decreases |moves|
  {
    var last := |moves| - 1;
    var before := moves[..last];
    var w := Play(before);
    InvPlay(before);
    if Enabled(w, moves[last]) {
      LogStep(w, moves[last]);
    }
    if k < |w.log| {
      n := AudienceIsOpen(before, k);
      assert before[..n] == moves[..n];
      assert Play(moves).log[k] == w.log[k];
    } else {
      n := last;
    }
  }

  /** The n-th move unsubscribes ch. */
  ghost predicate UnsubscribesAt(moves: seq<Move>, n: nat, ch: nat) {
    n < |moves| && moves[n] == Unsubscribe(ch) && Enabled(Play(moves[..n]), moves[n])
  }

  ghost predicate UnsubscribedIn(moves: seq<Move>, ch: nat) { exists n :: UnsubscribesAt(moves, n, ch) }

  lemma UnsubscribedGrows(moves: seq<Move>, m: Move, ch: nat)
    ensures UnsubscribedIn(moves + [m], ch)
      <==> UnsubscribedIn(moves, ch) || (m == Unsubscribe(ch) && Enabled(Play(moves), m))
  {
    var more := moves + [m];
    assert more[..|moves|] == moves;
    forall n: nat | n < |moves| ensures UnsubscribesAt(more, n, ch) <==> UnsubscribesAt(moves, n, ch) {
      assert more[..n] == moves[..n];
    }
    assert UnsubscribesAt(more, |moves|, ch) <==> m == Unsubscribe(ch) && Enabled(Play(moves), m);
    if UnsubscribedIn(moves, ch) {
      var n :| UnsubscribesAt(moves, n, ch);
      assert UnsubscribesAt(more, n, ch);
    }
  }

  lemma ClosedStep(w: World, m: Move, ch: nat)
    requires Inv(w) && Enabled(w, m)
    ensures var w' := Step(w, m);
      && |w.chans| <= |w'.chans| <= |w.chans| + 1
      && (ch < |w.chans| ==> (w'.chans[ch].closed <==> w.chans[ch].closed || m == Unsubscribe(ch)))
      && (|w.chans| <= ch < |w'.chans| ==> !w'.chans[ch].closed && m.Subscribe?)
  {
  }

  /** A channel is closed exactly when it has been unsubscribed. */
  lemma {:induction false} ClosedIffUnsubscribed(moves: seq<Move>, ch: nat)
    ensures ch < |Play(moves).chans| ==> (Play(moves).chans[ch].closed <==> UnsubscribedIn(moves, ch))
    ensures UnsubscribedIn(moves, ch) ==> ch < |Play(moves).chans|
    decreases |moves|
  {
    if moves != [] {
      var last := |moves| - 1;
      var before := moves[..last];
      var w := Play(before);
      InvPlay(before);
      ClosedIffUnsubscribed(before, ch);
      UnsubscribedGrows(before, moves[last], ch);
      assert before + [moves[last]] == moves;
      if Enabled(w, moves[last]) {
        ClosedStep(w, moves[last], ch);
      }
    }
  }

  // ----- A broadcast never waits for its subscribers -----

  predicate Offers(m: Move, who: Id) { m == End(who) || (m.Send? && m.who == who) }

  lemma OffersOne(moves: seq<Move>, who: Id, ch: nat)
    requires var w := Play(moves); who in w.active && ch in w.active[who].left
    ensures var w, w' := Play(moves), Play(moves + [Send(who, ch)]);
      && who in w'.active && w'.active[who].left == w.active[who].left - {ch}
      && w'.log == w.log && w'.subs == w.subs
  {
    InvPlay(moves);
    PlayJoins(moves, Send(who, ch));
    assert Enabled(Play(moves), Send(who, ch));
  }

  lemma EndsCall(moves: seq<Move>, who: Id)
    requires var w := Play(moves); who in w.active && w.active[who].left == {}
    ensures var w, w' := Play(moves), Play(moves + [End(who)]);
      who !in w'.active && w'.log == w.log && w'.subs == w.subs
  {
    PlayJoins(moves, End(who));
  }

  /** Main result: in every run a broadcast under way, with these subscribers left, can finish by its own steps alone,
      whatever the subscribers do. */
  lemma {:induction false} BroadcastCanFinish(moves: seq<Move>, who: Id, left: set<nat>) returns (more: seq<Move>)
    requires var w := Play(moves); who in w.active && w.active[who].left == left
    ensures var w, w' := Play(moves), Play(moves + more);
      who !in w'.active && w'.log == w.log && w'.subs == w.subs
    ensures forall i :: 0 <= i < |more| ==> Offers(more[i], who)
    decreases left
  {
    if left == {} {
      more := [End(who)];
      EndsCall(moves, who);
    } else {
      var ch :| ch in left;
      OffersOne(moves, who, ch);
      var after := BroadcastCanFinish(moves + [Send(who, ch)], who, left - {ch});
      more := [Send(who, ch)] + after;
      assert moves + more == moves + [Send(who, ch)] + after;
    }
  }
}
