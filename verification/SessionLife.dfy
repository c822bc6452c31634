/** The life of cookie sessions and their one-shot flash messages, irmik/session/session.go, as operations on
    values. One client, one request at a time; the client keeps the cookie the server last set. */
module SessionLife {
  import opened Common

  type Values = map<string, string>

  /** What the store holds for one id. */
  datatype Stored = Stored(values: Values, flash: Values, expires: int)

  type Store = map<string, Stored>

  /** The per-request session; an empty id means none has been issued. */
  datatype Sess = Sess(id: string, values: Values, flash: Values, out: Values, dirty: bool, isNew: bool)

  /** fresh is the id newID yields, used only when the session has none. */
  datatype Op =
    | Set(k: string, v: string)
    | Delete(k: string)
    | SetFlash(k: string, v: string)
    | PopFlash(k: string)
    | Clear
    | Save(now: int, freshId: string)
    | Regenerate(now: int, freshId: string)
    | Destroy

  datatype World = World(sess: Sess, store: Store, cookie: Option<string>)

  // ----- Specification -----

  /** The store's Get: an expired entry is deleted. */
  function Fetch(store: Store, id: string, now: int): (Option<Stored>, Store) {
    if id !in store then (None, store)
    else if now > store[id].expires then (None, store - {id})
    else (Some(store[id]), store)
  }

  function Load(store: Store, cookie: Option<string>, now: int): World {
    var blank := Sess("", map[], map[], map[], false, true);
    if cookie.None? || cookie.value == "" then World(blank, store, cookie) else
    var (found, left) := Fetch(store, cookie.value, now);
    match found
    case None => World(blank, left, cookie)
    case Some(d) => World(Sess(cookie.value, d.values, d.flash, map[], d.flash != map[], false), left, cookie)
  }

  function Persist(maxAge: int, w: World, now: int, freshId: string): World {
    var id := if w.sess.id == "" then freshId else w.sess.id;
    World(w.sess.(id := id, dirty := false, isNew := false, out := map[]),
          w.store[id := Stored(w.sess.values, w.sess.out, now + maxAge)],
          Some(id))
  }

  function Do(maxAge: int, w: World, op: Op): World {
    var s := w.sess;
    match op
    case Set(k, v) => w.(sess := s.(values := s.values[k := v], dirty := true))
    case Delete(k) => w.(sess := s.(values := s.values - {k}, dirty := true))
    case SetFlash(k, v) => w.(sess := s.(out := s.out[k := v], dirty := true))
    case PopFlash(k) => w.(sess := s.(flash := s.flash - {k}))
    case Clear => w.(sess := s.(values := map[], flash := map[], out := map[], dirty := true))
    case Save(now, freshId) => Persist(maxAge, w, now, freshId)
    case Regenerate(now, freshId) =>
      var store := if s.id == "" then w.store else w.store - {s.id};
      Persist(maxAge, World(s.(id := "", isNew := true, dirty := true), store, w.cookie), now, freshId)
    case Destroy =>
      World(s.(values := map[], flash := map[], out := map[], id := "", dirty := false),
            if s.id == "" then w.store else w.store - {s.id}, None)
  }

  function DoAll(maxAge: int, w: World, ops: seq<Op>): World
    decreases |ops|
  {
    if ops == [] then w else Do(maxAge, DoAll(maxAge, w, ops[..|ops| - 1]), ops[|ops| - 1])
  }

  /** One request through the middleware: load, the handler's operations, a save if anything is unsaved. */
  function Request(maxAge: int, store: Store, cookie: Option<string>, now: int, ops: seq<Op>, end: int, freshId: string): World {
    var w := DoAll(maxAge, Load(store, cookie, now), ops);
    if w.sess.dirty then Persist(maxAge, w, end, freshId) else w
  }

  /** The flash messages the client's next request can read. */
  function Readable(store: Store, cookie: Option<string>, now: int): Values {
    Load(store, cookie, now).sess.flash
  }

  // ----- Flash messages are readable in the next request only -----

  /** What the store now holds for the client's cookie. */
  function Kept(w: World): Values {
    if w.cookie.None? || w.cookie.value == "" || w.cookie.value !in w.store then map[] else w.store[w.cookie.value].flash
  }

  ghost predicate SetIn(ops: seq<Op>, k: string, v: string) {
    exists i :: 0 <= i < |ops| && ops[i] == SetFlash(k, v)
  }

  ghost predicate AllSetIn(m: Values, ops: seq<Op>) {
    forall k :: k in m ==> SetIn(ops, k, m[k])
  }

  lemma AllSetInMore(m: Values, ops: seq<Op>, op: Op)
    requires AllSetIn(m, ops)
    ensures AllSetIn(m, ops + [op])
  {
    forall k | k in m ensures SetIn(ops + [op], k, m[k]) {
      var i :| 0 <= i < |ops| && ops[i] == SetFlash(k, m[k]);
      assert (ops + [op])[i] == SetFlash(k, m[k]);
    }
  }

  /** During a request: what is pending was set in it; what is stored was set in it, or nothing has been
      saved yet and the old messages are still there, in which case the session is dirty. */
  ghost predicate FlashOK(w: World, ops: seq<Op>) {
    && AllSetIn(w.sess.out, ops)
    && (AllSetIn(Kept(w), ops) || (w.sess.dirty && w.cookie == Some(w.sess.id)))
  }

  lemma FlashOp(maxAge: int, w: World, ops: seq<Op>, op: Op)
    requires FlashOK(w, ops)
    ensures FlashOK(Do(maxAge, w, op), ops + [op])
  {
    var w' := Do(maxAge, w, op);
    AllSetInMore(w.sess.out, ops, op);
    if AllSetIn(Kept(w), ops) {
      AllSetInMore(Kept(w), ops, op);
    }
    if op.SetFlash? {
      assert (ops + [op])[|ops|] == op;
      assert SetIn(ops + [op], op.k, op.v);
    }
  }

  lemma {:induction false} FlashOps(maxAge: int, w: World, ops: seq<Op>)
    requires w.sess.out == map[] && (Kept(w) == map[] || (w.sess.dirty && w.cookie == Some(w.sess.id)))
    ensures FlashOK(DoAll(maxAge, w, ops), ops)
    decreases |ops|
  {
    if ops != [] {
      var n := |ops| - 1;
      FlashOps(maxAge, w, ops[..n]);
      FlashOp(maxAge, DoAll(maxAge, w, ops[..n]), ops[..n], ops[n]);
      assert ops[..n] + [ops[n]] == ops;
    }
  }

  /** Main result: whatever came before, the next request reads only flash messages set in this one. A message
      is therefore readable in at most one request, the one after it was set. */
  lemma FlashIsOneShot(maxAge: int, store: Store, cookie: Option<string>, now: int, ops: seq<Op>, end: int, freshId: string, next: int)
    ensures var w := Request(maxAge, store, cookie, now, ops, end, freshId);
      forall k :: k in Readable(w.store, w.cookie, next) ==>
        exists i :: 0 <= i < |ops| && ops[i] == SetFlash(k, Readable(w.store, w.cookie, next)[k])
  {
    var w0 := Load(store, cookie, now);
    FlashOps(maxAge, w0, ops);
    var w := Request(maxAge, store, cookie, now, ops, end, freshId);
    assert AllSetIn(Kept(w), ops);
    var r := Readable(w.store, w.cookie, next);
    forall k | k in r ensures exists i :: 0 <= i < |ops| && ops[i] == SetFlash(k, r[k]) {
      assert r == Kept(w) && SetIn(ops, k, r[k]);
    }
  }

  // ----- Exactly when a message is readable -----

  predicate Saves(op: Op) { op.Save? || op.Regenerate? }

  predicate Dirties(op: Op) { op.Set? || op.Delete? || op.SetFlash? || op.Clear? }

  function CountSaves(ops: seq<Op>): nat {
    if ops == [] then 0 else CountSaves(ops[..|ops| - 1]) + (if Saves(ops[|ops| - 1]) then 1 else 0)
  }

  /** Something was changed after the last save. */
  predicate Unsaved(ops: seq<Op>) {
    ops != [] && (Dirties(ops[|ops| - 1]) || (!Saves(ops[|ops| - 1]) && Unsaved(ops[..|ops| - 1])))
  }

  /** How often the session is saved after the message, the middleware's own save included. */
  function SavesAfter(after: seq<Op>): nat {
    CountSaves(after) + (if CountSaves(after) == 0 || Unsaved(after) then 1 else 0)
  }

  predicate LeavesAlone(op: Op, k: string) {
    !op.Clear? && !op.Destroy? && !(op.SetFlash? && op.k == k) && (Saves(op) ==> op.freshId != "")
  }

  /** The message is pending, stored, or lost according to the number of saves so far. */
  ghost predicate Tracks(w: World, k: string, v: string, saves: nat, dirty: bool) {
    && w.sess.dirty == dirty
    && (if saves == 0 then k in w.sess.out && w.sess.out[k] == v else k !in w.sess.out)
    && (saves > 0 ==> w.sess.id != "" && w.cookie == Some(w.sess.id) && w.sess.id in w.store)
    && (saves == 1 ==> k in Kept(w) && Kept(w)[k] == v)
    && (saves > 1 ==> k !in Kept(w))
  }

  lemma TracksOp(maxAge: int, w: World, k: string, v: string, saves: nat, dirty: bool, op: Op)
    requires Tracks(w, k, v, saves, dirty) && LeavesAlone(op, k)
    ensures Tracks(Do(maxAge, w, op), k, v, saves + (if Saves(op) then 1 else 0),
                   if Saves(op) then false else dirty || Dirties(op))
  {
  }

  lemma {:induction false} TracksOps(maxAge: int, w: World, k: string, v: string, after: seq<Op>)
    requires Tracks(w, k, v, 0, true) && forall i :: 0 <= i < |after| ==> LeavesAlone(after[i], k)
    ensures Tracks(DoAll(maxAge, w, after), k, v, CountSaves(after), CountSaves(after) == 0 || Unsaved(after))
    decreases |after|
  {
    if after != [] {
      var n := |after| - 1;
      TracksOps(maxAge, w, k, v, after[..n]);
      TracksOp(maxAge, DoAll(maxAge, w, after[..n]), k, v, CountSaves(after[..n]),
               CountSaves(after[..n]) == 0 || Unsaved(after[..n]), after[n]);
    }
  }

  lemma {:induction false} DoAllConcat(maxAge: int, w: World, a: seq<Op>, b: seq<Op>)
    ensures DoAll(maxAge, w, a + b) == DoAll(maxAge, DoAll(maxAge, w, a), b)
    decreases |b|
  {
    if b == [] {
      assert a + b == a;
    } else {
      assert (a + b)[..|a + b| - 1] == a + b[..|b| - 1];
      DoAllConcat(maxAge, w, a, b[..|b| - 1]);
    }
  }

  /** Main result: a message not overwritten, cleared or destroyed later in its request is readable in the
      next request exactly when the session is saved exactly once after it. A save of the handler's own
      followed by another change loses it, because the middleware then saves a second time without it. */
  lemma FlashReadableIffSavedOnce(maxAge: int, store: Store, cookie: Option<string>, now: int,
                                  before: seq<Op>, k: string, v: string, after: seq<Op>, end: int, freshId: string, next: int)
    requires freshId != "" && forall i :: 0 <= i < |after| ==> LeavesAlone(after[i], k)
    requires var w := Request(maxAge, store, cookie, now, before + [SetFlash(k, v)] + after, end, freshId);
      w.cookie.Some? && w.cookie.value in w.store ==> next <= w.store[w.cookie.value].expires
    ensures var w := Request(maxAge, store, cookie, now, before + [SetFlash(k, v)] + after, end, freshId);
      var r := Readable(w.store, w.cookie, next);
      && (k in r <==> SavesAfter(after) == 1)
      && (k in r ==> r[k] == v)
  {
    var ops := before + [SetFlash(k, v)] + after;
    var w0 := DoAll(maxAge, Load(store, cookie, now), before + [SetFlash(k, v)]);
    DoAllConcat(maxAge, Load(store, cookie, now), before + [SetFlash(k, v)], after);
    assert (before + [SetFlash(k, v)])[..|before|] == before;
    assert Tracks(w0, k, v, 0, true);
    TracksOps(maxAge, w0, k, v, after);
    var w1 := DoAll(maxAge, w0, after);
    if w1.sess.dirty {
      TracksOp(maxAge, w1, k, v, CountSaves(after), true, Save(end, freshId));
    }
    var w := Request(maxAge, store, cookie, now, ops, end, freshId);
    assert Tracks(w, k, v, SavesAfter(after), false);
    assert Readable(w.store, w.cookie, next) == Kept(w);
  }

  /** A handler that sets a message, saves, and then sets a value loses the message. */
  lemma SavedTwiceLosesFlash(maxAge: int, store: Store, cookie: Option<string>, now: int, k: string, v: string,
                             value: string, id: string, next: int)
    requires id != ""
    ensures var ops := [] + [SetFlash(k, v)] + [Save(now, id), Set("a", value)];
      var w := Request(maxAge, store, cookie, now, ops, now, id);
      k !in Readable(w.store, w.cookie, next)
  {
    var after := [Save(now, id), Set("a", value)];
    assert after[..1] == [Save(now, id)] && [Save(now, id)][..0] == [];
    assert CountSaves(after[..1]) == 1;
    assert SavesAfter(after) == 2;
    var w := Request(maxAge, store, cookie, now, [] + [SetFlash(k, v)] + after, now, id);
    if w.cookie.Some? && w.cookie.value in w.store ==> next <= w.store[w.cookie.value].expires {
      FlashReadableIffSavedOnce(maxAge, store, cookie, now, [], k, v, after, now, id, next);
    }
  }

  // ----- Regenerate -----

  /** After Regenerate the old id is unknown, the same values live under the one fresh id, and no other
      session has changed. */
  lemma RegenerateMoves(maxAge: int, w: World, now: int, freshId: string, later: int)
    requires freshId != "" && freshId !in w.store && freshId != w.sess.id && now <= later <= now + maxAge
    ensures var w' := Do(maxAge, w, Regenerate(now, freshId));
      && w'.cookie == Some(freshId)
      && Load(w'.store, w'.cookie, later).sess.values == w.sess.values
      && (w.sess.id != "" ==> Fetch(w'.store, w.sess.id, later).0 == None)
      && w'.store.Keys == (w.store.Keys - {w.sess.id}) + {freshId} + (if w.sess.id == "" then w.store.Keys else {})
      && forall id :: id in w.store && id != w.sess.id ==> w'.store[id] == w.store[id]
  {
  }

  // ----- What a session holds -----

  function ValueOf(m: Values, k: string): Option<string> { if k in m then Some(m[k]) else None }

  /** The value last set for k in these operations, if it has not been deleted or cleared since; v0 is what there was
      before. */
  function LastWritten(ops: seq<Op>, k: string, v0: Option<string>): Option<string> {
    if ops == [] then v0 else
    match ops[|ops| - 1]
    case Set(j, v) => if j == k then Some(v) else LastWritten(ops[..|ops| - 1], k, v0)
    case Delete(j) => if j == k then None else LastWritten(ops[..|ops| - 1], k, v0)
    case Clear => None
    case Destroy => None
    case _ => LastWritten(ops[..|ops| - 1], k, v0)
  }

  lemma WritesOne(maxAge: int, w: World, op: Op, k: string)
    ensures ValueOf(Do(maxAge, w, op).sess.values, k)
      == if op.Set? && op.k == k then Some(op.v)
         else if (op.Delete? && op.k == k) || op.Clear? || op.Destroy? then None
         else ValueOf(w.sess.values, k)
  {
  }

  lemma {:induction false} HoldsLastWritten(maxAge: int, w: World, ops: seq<Op>, k: string)
    ensures ValueOf(DoAll(maxAge, w, ops).sess.values, k) == LastWritten(ops, k, ValueOf(w.sess.values, k))
    decreases |ops|
  {
    if ops != [] {
      HoldsLastWritten(maxAge, w, ops[..|ops| - 1], k);
      WritesOne(maxAge, DoAll(maxAge, w, ops[..|ops| - 1]), ops[|ops| - 1], k);
    }
  }

  /** Main result: what a request that ends with something unsaved leaves is what the client's next request finds, up to
      the lifetime from that end: each value last written, over what the request itself had found. After it the session
      is gone and a new one begins. */
  lemma NextRequestFinds(maxAge: int, store: Store, cookie: Option<string>, now: int, ops: seq<Op>, end: int, freshId: string,
                         next: int, k: string)
    requires freshId != "" && DoAll(maxAge, Load(store, cookie, now), ops).sess.dirty
    ensures var w := Request(maxAge, store, cookie, now, ops, end, freshId);
      var found := Load(w.store, w.cookie, next);
      if next <= end + maxAge
      then !found.sess.isNew
           && ValueOf(found.sess.values, k) == LastWritten(ops, k, ValueOf(Load(store, cookie, now).sess.values, k))
      else found.sess.isNew && found.sess.values == map[] && w.cookie.Some? && w.cookie.value !in found.store
  {
    HoldsLastWritten(maxAge, Load(store, cookie, now), ops, k);
  }

  predicate TakesFlash(op: Op, k: string) { op == PopFlash(k) || op.Clear? || op.Destroy? }

  lemma ReadableStep(maxAge: int, w: World, op: Op, k: string)
    ensures ValueOf(Do(maxAge, w, op).sess.flash, k) == if TakesFlash(op, k) then None else ValueOf(w.sess.flash, k)
  {
  }

  /** A message from the request before can be read until it is popped, or the session cleared or destroyed; setting one
      for the next request, saving and regenerating leave it readable. */
  lemma {:induction false} ReadableUntilTaken(maxAge: int, w: World, ops: seq<Op>, k: string)
    ensures ValueOf(DoAll(maxAge, w, ops).sess.flash, k)
      == if exists i :: 0 <= i < |ops| && TakesFlash(ops[i], k) then None else ValueOf(w.sess.flash, k)
    decreases |ops|
  {
    if ops != [] {
      var n := |ops| - 1;
      ReadableUntilTaken(maxAge, w, ops[..n], k);
      ReadableStep(maxAge, DoAll(maxAge, w, ops[..n]), ops[n], k);
      assert forall i :: 0 <= i < n ==> ops[..n][i] == ops[i];
    }
  }

  lemma {:induction false} PopsStayClean(maxAge: int, w: World, ops: seq<Op>)
    requires !w.sess.dirty && forall i :: 0 <= i < |ops| ==> ops[i].PopFlash?
    ensures var w' := DoAll(maxAge, w, ops); !w'.sess.dirty && w'.store == w.store && w'.cookie == w.cookie
    decreases |ops|
  {
    if ops != [] {
      PopsStayClean(maxAge, w, ops[..|ops| - 1]);
    }
  }

  /** A request with no message to read that only looks at its session writes nothing, and no cookie is set. */
  lemma LookingWritesNothing(maxAge: int, store: Store, cookie: Option<string>, now: int, ops: seq<Op>, end: int, freshId: string)
    requires Readable(store, cookie, now) == map[] && forall i :: 0 <= i < |ops| ==> ops[i].PopFlash?
    ensures var w := Request(maxAge, store, cookie, now, ops, end, freshId);
      && w.cookie == cookie
      && forall id :: id in w.store <==> id in store && !(cookie == Some(id) && id != "" && now > store[id].expires)
    ensures var w := Request(maxAge, store, cookie, now, ops, end, freshId);
      forall id :: id in w.store ==> w.store[id] == store[id]
  {
    PopsStayClean(maxAge, Load(store, cookie, now), ops);
  }

  /** Destroying a session last leaves nothing of it: not in the store, no cookie, and no save at the end. */
  lemma DestroyedIsGone(maxAge: int, store: Store, cookie: Option<string>, now: int, ops: seq<Op>, end: int, freshId: string)
    ensures var before := DoAll(maxAge, Load(store, cookie, now), ops);
      var w := Request(maxAge, store, cookie, now, ops + [Destroy], end, freshId);
      && w.cookie == None && (before.sess.id != "" ==> before.sess.id !in w.store)
      && forall id :: id in before.store && id != before.sess.id ==> id in w.store && w.store[id] == before.store[id]
  {
    assert (ops + [Destroy])[..|ops|] == ops;
  }
}
