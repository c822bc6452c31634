/** When subscribers of the event hub of irmik/sse/hub.go agree on the order of events: exactly calls that were under
    way together can reach a channel in the other order than they got the lock. */
module SseHubOrder {
  import opened SseHub

  predicate Active(w: World, x: Call) { x.who in w.active && w.active[x.who].call == x }

  /** At some moment of the run both calls were under way. */
  ghost predicate Overlapped(moves: seq<Move>, x: Call, y: Call) {
    exists n :: 0 <= n <= |moves| && Active(Play(moves[..n]), x) && Active(Play(moves[..n]), y)
  }

  lemma OverlappedLater(moves: seq<Move>, m: Move, x: Call, y: Call)
    requires Overlapped(moves, x, y)
    ensures Overlapped(moves + [m], x, y)
  {
    var n :| 0 <= n <= |moves| && Active(Play(moves[..n]), x) && Active(Play(moves[..n]), y);
    assert (moves + [m])[..n] == moves[..n];
  }

  /** A call under way overlapped every call that got the lock after it. */
  ghost predicate ActiveOverlap(moves: seq<Move>) {
    forall who, k :: who in Play(moves).active && Play(moves).active[who].call.serial < k < |Play(moves).log| ==>
      Overlapped(moves, Play(moves).active[who].call, Play(moves).log[k].call)
  }

  lemma ActiveOverlapStep(moves: seq<Move>, m: Move)
    requires ActiveOverlap(moves)
    ensures ActiveOverlap(moves + [m])
  {
    var w, w' := Play(moves), Play(moves + [m]);
    PlayJoins(moves, m);
    InvPlay(moves);
    forall who, k: nat | who in w'.active && w'.active[who].call.serial < k < |w'.log|
      ensures Overlapped(moves + [m], w'.active[who].call, w'.log[k].call)
    {
      var x, y := w'.active[who].call, w'.log[k].call;
      if k < |w.log| {
        assert who in w.active && w.active[who].call == x;
        OverlappedLater(moves, m, x, y);
      } else {
        assert m.Begin? && Active(w', y) && Active(w', x);
        assert (moves + [m])[..|moves| + 1] == moves + [m];
      }
    }
  }

  lemma {:induction false} ActiveOverlapPlay(moves: seq<Move>)
    ensures ActiveOverlap(moves)
    decreases |moves|
  {
    if moves != [] {
      var n := |moves| - 1;
      ActiveOverlapPlay(moves[..n]);
      ActiveOverlapStep(moves[..n], moves[n]);
      assert moves[..n] + [moves[n]] == moves;
    }
  }

  function AcceptedBy(w: World, ch: nat): seq<Call> { if ch < |w.chans| then Accepted(w.chans[ch]) else [] }

  lemma AcceptStep(w: World, m: Move, ch: nat)
    requires Inv(w)
    ensures AcceptedBy(Next(w, m), ch) == AcceptedBy(w, ch)
      || (m.Send? && m.ch == ch && Enabled(w, m) && AcceptedBy(Next(w, m), ch) == AcceptedBy(w, ch) + [w.active[m.who].call])
  {
    if Enabled(w, m) && ch < |w.chans| {
      if m.Send? && m.ch == ch {
        SendInOrder(w, m.who, ch);
      } else if m.Take? && m.ch == ch {
        var c := w.chans[ch];
        assert c.taken + [c.queue[0]] + c.queue[1..] == c.taken + c.queue;
      }
    }
  }

  /** Main result: a channel accepts two calls in the order in which they got the lock, or they were under way
      together. */
  lemma {:induction false} SwappedOverlapped(moves: seq<Move>, ch: nat, i: nat, j: nat)
    requires i < j < |AcceptedBy(Play(moves), ch)|
    ensures var s := AcceptedBy(Play(moves), ch);
      s[i].serial < s[j].serial || Overlapped(moves, s[j], s[i])
    decreases |moves|
  {
    if moves != [] {
      var n := |moves| - 1;
      var p, m := moves[..n], moves[n];
      assert p + [m] == moves;
      InvPlay(p);
      AcceptStep(Play(p), m, ch);
      var s := AcceptedBy(Play(moves), ch);
      if j < |AcceptedBy(Play(p), ch)| {
        SwappedOverlapped(p, ch, i, j);
        if s[i].serial >= s[j].serial {
          OverlappedLater(p, m, s[j], s[i]);
        }
      } else {
        NewestOverlaps(p, m, ch, s[i]);
      }
    }
  }

  lemma OtherCall(w: World, who: Id, ch: nat, y: Call)
    requires Inv(w) && Enabled(w, Send(who, ch)) && y in Accepted(w.chans[ch])
    ensures y.serial < |w.log| && w.log[y.serial].call == y && y.serial != w.active[who].call.serial
  {
    assert OfferedOnce(w, ch) && Pending(w, w.active[who].call, ch);
  }

  /** What a channel accepted before the call now offered got the lock before it, or overlapped it. */
  lemma NewestOverlaps(p: seq<Move>, m: Move, ch: nat, y: Call)
    requires m.Send? && m.ch == ch && Enabled(Play(p), m) && y in Accepted(Play(p).chans[ch])
    ensures var x := Play(p).active[m.who].call; y.serial < x.serial || Overlapped(p + [m], x, y)
  {
    InvPlay(p);
    ActiveOverlapPlay(p);
    OtherCall(Play(p), m.who, ch, y);
    var x := Play(p).active[m.who].call;
    if x.serial < y.serial {
      OverlappedLater(p, m, x, y);
    }
  }

  /** Conversely, calls under way together can still reach a channel with room for both in either order. */
  lemma OverlapSwaps(moves: seq<Move>, a: Id, b: Id, ch: nat)
    requires var w := Play(moves);
      && a != b && Enabled(w, Send(a, ch)) && Enabled(w, Send(b, ch))
      && |w.chans[ch].queue| + 2 <= w.chans[ch].capacity
    ensures var w := Play(moves); var x, y := w.active[a].call, w.active[b].call;
      && AcceptedBy(Play(moves + [Send(a, ch)] + [Send(b, ch)]), ch) == Accepted(w.chans[ch]) + [x] + [y]
      && AcceptedBy(Play(moves + [Send(b, ch)] + [Send(a, ch)]), ch) == Accepted(w.chans[ch]) + [y] + [x]
  {
    SendTwo(moves, a, b, ch);
    SendTwo(moves, b, a, ch);
  }

  lemma SendTwo(moves: seq<Move>, a: Id, b: Id, ch: nat)
    requires var w := Play(moves);
      && a != b && Enabled(w, Send(a, ch)) && Enabled(w, Send(b, ch))
      && |w.chans[ch].queue| + 2 <= w.chans[ch].capacity
    ensures var w := Play(moves);
      AcceptedBy(Play(moves + [Send(a, ch)] + [Send(b, ch)]), ch)
      == Accepted(w.chans[ch]) + [w.active[a].call] + [w.active[b].call]
  {
    InvPlay(moves);
    PlayJoins(moves, Send(a, ch));
    SendInOrder(Play(moves), a, ch);
    var more := moves + [Send(a, ch)];
    InvPlay(more);
    PlayJoins(more, Send(b, ch));
    SendInOrder(Play(more), b, ch);
  }
}
