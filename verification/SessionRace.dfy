/** Two requests of one client in flight at once, irmik/session/session.go: one has regenerated the session while the
    other still works under the old id. */
module SessionRace {
  import opened Common
  import opened SessionLife

  /** The sessions of the request that regenerated and of the other, over one store. */
  datatype Pair = Pair(moved: Sess, other: Sess, store: Store)

  /** An operation of one of the two. */
  datatype Turn = Turn(byOther: bool, op: Op)

  function Take(maxAge: int, p: Pair, turn: Turn): Pair {
    if turn.byOther then
      var w := Do(maxAge, World(p.other, p.store, None), turn.op);
      p.(other := w.sess, store := w.store)
    else
      var w := Do(maxAge, World(p.moved, p.store, None), turn.op);
      p.(moved := w.sess, store := w.store)
  }

  function TakeAll(maxAge: int, p: Pair, turns: seq<Turn>): Pair
    decreases |turns|
  {
    if turns == [] then p else Take(maxAge, TakeAll(maxAge, p, turns[..|turns| - 1]), turns[|turns| - 1])
  }

  /** New ids are never the old one. */
  ghost predicate FreshIds(turns: seq<Turn>, oldId: string) {
    forall i :: 0 <= i < |turns| && Saves(turns[i].op) ==> turns[i].op.freshId != oldId
  }

  predicate Leaves(turn: Turn) { turn.byOther && (turn.op.Regenerate? || turn.op.Destroy?) }

  predicate Touches(turn: Turn) { turn.byOther && (turn.op.Save? || Dirties(turn.op)) }

  /** The other request gave up the old id itself. */
  predicate LeftOld(turns: seq<Turn>) { exists i :: 0 <= i < |turns| && Leaves(turns[i]) }

  /** The other request has, or had, something to save. */
  predicate Touched(p: Pair, turns: seq<Turn>) {
    p.other.dirty || exists i :: 0 <= i < |turns| && Touches(turns[i])
  }

  predicate Moved(p: Pair, oldId: string) {
    oldId != "" && p.moved.id != oldId && p.other.id == oldId && oldId !in p.store
  }

  ghost predicate Tracked(p: Pair, oldId: string, left: bool, touched: bool) {
    && oldId != "" && p.moved.id != oldId
    && (left ==> p.other.id != oldId && oldId !in p.store)
    && (!left ==> p.other.id == oldId && ((oldId in p.store || p.other.dirty) <==> touched))
  }

  /** A session under another id leaves the old one alone. */
  lemma OtherIdStays(maxAge: int, w: World, op: Op, oldId: string)
    requires oldId != "" && w.sess.id != oldId && (Saves(op) ==> op.freshId != oldId)
    ensures Do(maxAge, w, op).sess.id != oldId
    ensures oldId in Do(maxAge, w, op).store <==> oldId in w.store
  {
  }

  lemma UnderOldId(maxAge: int, w: World, op: Op, oldId: string)
    requires oldId != "" && w.sess.id == oldId && (Saves(op) ==> op.freshId != oldId)
    ensures var w' := Do(maxAge, w, op);
      if op.Regenerate? || op.Destroy? then w'.sess.id != oldId && oldId !in w'.store
      else && w'.sess.id == oldId
           && (oldId in w'.store || w'.sess.dirty <==> oldId in w.store || w.sess.dirty || op.Save? || Dirties(op))
  {
  }

  lemma TrackedTake(maxAge: int, p: Pair, turn: Turn, oldId: string, left: bool, touched: bool)
    requires Tracked(p, oldId, left, touched) && (Saves(turn.op) ==> turn.op.freshId != oldId)
    ensures Tracked(Take(maxAge, p, turn), oldId, left || Leaves(turn), touched || Touches(turn))
  {
    if !turn.byOther {
      OtherIdStays(maxAge, World(p.moved, p.store, None), turn.op, oldId);
    } else if left {
      OtherIdStays(maxAge, World(p.other, p.store, None), turn.op, oldId);
    } else {
      UnderOldId(maxAge, World(p.other, p.store, None), turn.op, oldId);
    }
  }

  lemma {:induction false} TrackedAll(maxAge: int, p: Pair, turns: seq<Turn>, oldId: string)
    requires Moved(p, oldId) && FreshIds(turns, oldId)
    ensures Tracked(TakeAll(maxAge, p, turns), oldId, LeftOld(turns), Touched(p, turns))
    decreases |turns|
  {
    if turns != [] {
      var n := |turns| - 1;
      var before := turns[..n];
      TrackedAll(maxAge, p, before, oldId);
      TrackedTake(maxAge, TakeAll(maxAge, p, before), turns[n], oldId, LeftOld(before), Touched(p, before));
      assert forall i :: 0 <= i < n ==> before[i] == turns[i];
      assert LeftOld(turns) <==> LeftOld(before) || Leaves(turns[n]);
      assert Touched(p, turns) <==> Touched(p, before) || Touches(turns[n]);
    }
  }

  /** The middleware's save of the other request. */
  function EndOther(maxAge: int, p: Pair, now: int, freshId: string): Pair {
    if p.other.dirty then Take(maxAge, p, Turn(true, Save(now, freshId))) else p
  }

  /** Main result: after one request has regenerated, however the two go on, the end of the other puts the old id back
      into the store if and only if that one had something to save and did not itself regenerate or destroy the
      session. */
  lemma OldIdReturnsIff(maxAge: int, p: Pair, turns: seq<Turn>, oldId: string, now: int, freshId: string)
    requires Moved(p, oldId) && FreshIds(turns, oldId) && freshId != oldId
    ensures oldId in EndOther(maxAge, TakeAll(maxAge, p, turns), now, freshId).store
      <==> Touched(p, turns) && !LeftOld(turns)
  {
    TrackedAll(maxAge, p, turns, oldId);
    var q := TakeAll(maxAge, p, turns);
    if q.other.dirty {
      TrackedTake(maxAge, q, Turn(true, Save(now, freshId)), oldId, LeftOld(turns), Touched(p, turns));
    }
  }

  // ----- How two requests get there -----

  /** Two requests of one client load its session, and the first regenerates it. */
  function Raced(maxAge: int, store: Store, id: string, at: int, otherAt: int, now: int, freshId: string): Pair {
    var first := Load(store, Some(id), at);
    var second := Load(first.store, Some(id), otherAt);
    Take(maxAge, Pair(first.sess, second.sess, second.store), Turn(false, Regenerate(now, freshId)))
  }

  lemma TwoLoadsMove(maxAge: int, store: Store, id: string, at: int, otherAt: int, now: int, freshId: string)
    requires id != "" && freshId != id && id in store && at <= store[id].expires && otherAt <= store[id].expires
    ensures var p := Raced(maxAge, store, id, at, otherAt, now, freshId);
      && Moved(p, id) && p.moved.id == freshId && freshId in p.store
      && p.other == Load(store, Some(id), otherAt).sess
  {
  }

  /** So one value set by the other request brings the old id back, with the old values and that one. */
  lemma OldIdReturns(maxAge: int, store: Store, id: string, at: int, otherAt: int, now: int, freshId: string,
                     k: string, v: string, end: int)
    requires id != "" && freshId != id && id in store && at <= store[id].expires && otherAt <= store[id].expires
    ensures var p := Raced(maxAge, store, id, at, otherAt, now, freshId);
      var w := EndOther(maxAge, TakeAll(maxAge, p, [Turn(true, Set(k, v))]), end, "");
      && id !in p.store
      && id in w.store && w.store[id] == Stored(store[id].values[k := v], map[], end + maxAge)
  {
    TwoLoadsMove(maxAge, store, id, at, otherAt, now, freshId);
    assert [Turn(true, Set(k, v))][..0] == [];
  }
}
