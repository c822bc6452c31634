/** One-time refresh tokens: irmik/auth/refresh.go and the rotation in irmik/auth/jwt.go.

    Times are integers (nanoseconds). Every store operation reads the clock inside the lock; the model
    passes that reading as a parameter. */
module Refresh {
  import opened Common

  const MINUTE: int := 60_000_000_000
  const GC_SIZE: nat := 1024
  const DEFAULT_TTL: int := 7 * 24 * 60 * MINUTE

  datatype Record = Record(user: string, expires: int)

  datatype Store = Store(tokens: map<string, Record>, revokedUntil: map<string, int>, lastGC: Option<int>)

  datatype Op =
    | Put(id: string, user: string, expires: int)
    | Consume(id: string)
    | RevokeUser(user: string)
    | Revoked(user: string)

  /** One store call and the clock it reads. */
  datatype Event = Event(now: int, op: Op)

  datatype Answer = Stored | Redeemed(user: Option<string>) | Swept | Flag(revoked: bool)

  const EMPTY: Store := Store(map[], map[], None)

  function StoreTTL(ttl: int): int { if ttl <= 0 then DEFAULT_TTL else ttl }

  // ----- Specification of the store -----

  /** What a collection at time now leaves. */
  function Sweep(s: Store, now: int): Store {
    Store(map id | id in s.tokens && now <= s.tokens[id].expires :: s.tokens[id],
          map u | u in s.revokedUntil && now < s.revokedUntil[u] :: s.revokedUntil[u],
          Some(now))
  }

  /** When the program collects: on the first call, after a minute, or when many tokens are stored. */
  predicate Due(s: Store, now: int) {
    s.lastGC.None? || now - s.lastGC.value >= MINUTE || |s.tokens| >= GC_SIZE
  }

  /** A store call without its collection. */
  function Act(ttl: int, s: Store, e: Event): (Store, Answer) {
    match e.op
    case Put(id, user, expires) => (s.(tokens := s.tokens[id := Record(user, expires)]), Stored)
    case Consume(id) =>
      if id !in s.tokens then (s, Redeemed(None)) else
      var rec := s.tokens[id];
      var rest := s.(tokens := s.tokens - {id});
      if e.now > rec.expires then (rest, Redeemed(None))
      else if rec.user in s.revokedUntil && e.now < s.revokedUntil[rec.user] then (rest, Redeemed(None))
      else (rest, Redeemed(Some(rec.user)))
    case RevokeUser(user) =>
      (s.(tokens := Without(s.tokens, user), revokedUntil := s.revokedUntil[user := e.now + ttl]), Swept)
    case Revoked(user) => (s, Flag(user in s.revokedUntil && e.now < s.revokedUntil[user]))
  }

  function Without(tokens: map<string, Record>, user: string): map<string, Record> {
    map id | id in tokens && tokens[id].user != user :: tokens[id]
  }

  /** A store call with or without a collection first. */
  function Step(ttl: int, s: Store, e: Event, collect: bool): (Store, Answer) {
    Act(ttl, if collect then Sweep(s, e.now) else s, e)
  }

  /** The store after a history in which collection i ran exactly when collect[i]. */
  function After(ttl: int, h: seq<Event>, collect: seq<bool>): Store
    requires |collect| == |h|
    decreases |h|
  {
    if h == [] then EMPTY else
    var n := |h| - 1;
    Step(ttl, After(ttl, h[..n], collect[..n]), h[n], collect[n]).0
  }

  /** The store of the program, which decides about collection by Due. */
  function Program(ttl: int, h: seq<Event>): Store
    decreases |h|
  {
    if h == [] then EMPTY else
    var n := |h| - 1;
    var s := Program(ttl, h[..n]);
    Step(ttl, s, h[n], Due(s, h[n].now)).0
  }

  function Never(n: nat): (c: seq<bool>)
    ensures |c| == n
  {
    seq(n, _ => false)
  }

  ghost predicate Ordered(h: seq<Event>) {
    forall i, j :: 0 <= i < j < |h| ==> h[i].now <= h[j].now
  }

  // ----- The store as the program keeps it -----

  class MemoryRefreshStore {
    const ttl: int
    var tokens: map<string, Record>
    var revokedUntil: map<string, int>
    var lastGC: Option<int>

    function State(): Store
      reads this
    {
      Store(tokens, revokedUntil, lastGC)
    }

    constructor (ttl: int)
      ensures State() == EMPTY && this.ttl == StoreTTL(ttl)
      ensures this.ttl == if ttl > 0 then ttl else 604_800_000_000_000
    {
      this.ttl := if ttl <= 0 then DEFAULT_TTL else ttl;
      tokens, revokedUntil, lastGC := map[], map[], None;
    }

    method Put(id: string, user: string, expires: int, now: int)
      modifies this
      ensures State() == Step(ttl, old(State()), Event(now, Op.Put(id, user, expires)), Due(old(State()), now)).0
    {
      GcLocked(now);
      tokens := tokens[id := Record(user, expires)];
    }

    method Consume(id: string, now: int) returns (user: Option<string>)
      modifies this
      ensures (State(), Redeemed(user))
           == Step(ttl, old(State()), Event(now, Op.Consume(id)), Due(old(State()), now))
    {
      GcLocked(now);
      if id !in tokens {
        return None;
      }
      var rec := tokens[id];
      tokens := tokens - {id};
      if now > rec.expires {
        return None;
      }
      if rec.user in revokedUntil && now < revokedUntil[rec.user] {
        return None;
      }
      return Some(rec.user);
    }

    method RevokeUser(user: string, now: int)
      modifies this
      ensures State() == Step(ttl, old(State()), Event(now, Op.RevokeUser(user)), Due(old(State()), now)).0
    {
      GcLocked(now);
      revokedUntil := revokedUntil[user := now + ttl];
      DropUser(user);
    }

    /** The loop of RevokeUser. */
    method DropUser(user: string)
      modifies `tokens
      ensures tokens == Without(old(tokens), user)
    {
      var pending := tokens.Keys;
      while pending != {}
        invariant pending <= tokens.Keys <= old(tokens).Keys
        invariant forall id :: id in tokens ==> tokens[id] == old(tokens)[id]
        invariant forall id :: id in old(tokens) && id !in pending ==> (id in tokens <==> old(tokens)[id].user != user)
        decreases |pending|
      {
        var id :| id in pending;
        if tokens[id].user == user {
          tokens := tokens - {id};
        }
        pending := pending - {id};
      }
    }

    method Revoked(user: string, now: int) returns (r: bool)
      modifies this
      ensures (State(), Flag(r)) == Step(ttl, old(State()), Event(now, Op.Revoked(user)), Due(old(State()), now))
    {
      GcLocked(now);
      r := user in revokedUntil && now < revokedUntil[user];
    }

    method GcLocked(now: int)
      modifies this
      ensures State() == if Due(old(State()), now) then Sweep(old(State()), now) else old(State())
    {
      if lastGC.Some? && now - lastGC.value < MINUTE && |tokens| < GC_SIZE {
        return;
      }
      lastGC := Some(now);
      DropExpired(now);
      DropLapsed(now);
    }

    /** The first loop of the collection. */
    method DropExpired(now: int)
      modifies `tokens
      ensures tokens == Sweep(old(State()), now).tokens
    {
      var ids := tokens.Keys;
      while ids != {}
        invariant ids <= tokens.Keys <= old(tokens).Keys
        invariant forall id :: id in tokens ==> tokens[id] == old(tokens)[id]
        invariant forall id :: id in old(tokens) && id !in ids ==> (id in tokens <==> now <= old(tokens)[id].expires)
        decreases |ids|
      {
        var id :| id in ids;
        if now > tokens[id].expires {
          tokens := tokens - {id};
        }
        ids := ids - {id};
      }
    }

    /** The second loop of the collection. */
    method DropLapsed(now: int)
      modifies `revokedUntil
      ensures revokedUntil == Sweep(old(State()), now).revokedUntil
    {
      var users := revokedUntil.Keys;
      while users != {}
        invariant users <= revokedUntil.Keys <= old(revokedUntil).Keys
        invariant forall u :: u in revokedUntil ==> revokedUntil[u] == old(revokedUntil)[u]
        invariant forall u :: u in old(revokedUntil) && u !in users ==> (u in revokedUntil <==> now < old(revokedUntil)[u])
        decreases |users|
      {
        var u :| u in users;
        if !(now < revokedUntil[u]) {
          revokedUntil := revokedUntil - {u};
        }
        users := users - {u};
      }
    }
  }

  // ----- Collection is invisible -----

  /** g lacks only tokens that have expired and revocations that have lapsed by time t. */
  ghost predicate Trimmed(g: Store, u: Store, t: int) {
    && (forall id :: id in g.tokens ==> id in u.tokens && g.tokens[id] == u.tokens[id])
    && (forall id :: id in u.tokens && id !in g.tokens ==> u.tokens[id].expires < t)
    && (forall v :: v in g.revokedUntil ==> v in u.revokedUntil && g.revokedUntil[v] == u.revokedUntil[v])
    && (forall v :: v in u.revokedUntil && v !in g.revokedUntil ==> u.revokedUntil[v] <= t)
  }

  lemma SweepTrims(g: Store, u: Store, t: int)
    requires Trimmed(g, u, t)
    ensures Trimmed(Sweep(g, t), u, t)
  {
  }

  lemma TrimmedAct(ttl: int, g: Store, u: Store, e: Event)
    requires Trimmed(g, u, e.now)
    ensures Act(ttl, g, e).1 == Act(ttl, u, e).1
    ensures Trimmed(Act(ttl, g, e).0, Act(ttl, u, e).0, e.now)
  {
    match e.op
    case Put(_, _, _) =>
    case Consume(id) =>
    case RevokeUser(user) =>
      var g', u' := Act(ttl, g, e).0, Act(ttl, u, e).0;
      assert forall id :: id in u'.tokens && id !in g'.tokens ==> id in u.tokens && id !in g.tokens;
    case Revoked(_) =>
  }

  lemma TrimmedStep(ttl: int, g: Store, u: Store, e: Event, collect: bool)
    requires Trimmed(g, u, e.now)
    ensures Step(ttl, g, e, collect).1 == Act(ttl, u, e).1
    ensures Trimmed(Step(ttl, g, e, collect).0, Act(ttl, u, e).0, e.now)
  {
    SweepTrims(g, u, e.now);
    TrimmedAct(ttl, if collect then Sweep(g, e.now) else g, u, e);
  }

  lemma {:induction false} TrimmedAfter(ttl: int, h: seq<Event>, collect: seq<bool>, t: int)
    requires |collect| == |h| && Ordered(h) && forall i :: 0 <= i < |h| ==> h[i].now <= t
    ensures Trimmed(After(ttl, h, collect), After(ttl, h, Never(|h|)), t)
    decreases |h|
  {
    if h != [] {
      var n := |h| - 1;
      assert Never(|h|)[..n] == Never(n);
      TrimmedAfter(ttl, h[..n], collect[..n], h[n].now);
      TrimmedStep(ttl, After(ttl, h[..n], collect[..n]), After(ttl, h[..n], Never(n)), h[n], collect[n]);
    }
  }

  /** Main result: whenever collections fire, every call of every history answers as if none ever had. */
  lemma CollectionInvisible(ttl: int, h: seq<Event>, e: Event, collect: seq<bool>, now: bool)
    requires |collect| == |h| && Ordered(h + [e])
    ensures Step(ttl, After(ttl, h, collect), e, now).1 == Act(ttl, After(ttl, h, Never(|h|)), e).1
  {
    var all := h + [e];
    forall i | 0 <= i < |h| ensures h[i].now <= e.now {
      assert all[i] == h[i] && all[|h|] == e;
    }
    forall i, j | 0 <= i < j < |h| ensures h[i].now <= h[j].now {
      assert all[i] == h[i] && all[j] == h[j];
    }
    TrimmedAfter(ttl, h, collect, e.now);
    TrimmedStep(ttl, After(ttl, h, collect), After(ttl, h, Never(|h|)), e, now);
  }

  /** The program is one of those schedules. */
  lemma {:induction false} ProgramIsSchedule(ttl: int, h: seq<Event>) returns (collect: seq<bool>)
    ensures |collect| == |h| && Program(ttl, h) == After(ttl, h, collect)
    decreases |h|
  {
    collect := [];
    if h != [] {
      var n := |h| - 1;
      var before := ProgramIsSchedule(ttl, h[..n]);
      collect := before + [Due(Program(ttl, h[..n]), h[n].now)];
      assert collect[..n] == before;
    }
  }

  // ----- What Consume answers, read off the history alone -----

  predicate Mentions(e: Event, id: string) {
    (e.op.Put? && e.op.id == id) || (e.op.Consume? && e.op.id == id)
  }

  predicate Revokes(e: Event, user: string) {
    e.op == RevokeUser(user)
  }

  /** Put i is the last word on its id: no later Put or Consume of the id and no later revocation of its user. */
  ghost predicate Stands(h: seq<Event>, i: int, id: string, rec: Record) {
    && 0 <= i < |h| && h[i].op == Put(id, rec.user, rec.expires)
    && forall j :: i < j < |h| ==> !Mentions(h[j], id) && !Revokes(h[j], rec.user)
  }

  /** Some revocation of user is still in force at time now. */
  ghost predicate Barred(ttl: int, h: seq<Event>, user: string, now: int) {
    exists j :: 0 <= j < |h| && Revokes(h[j], user) && now < h[j].now + ttl
  }

  /** id can be redeemed for user at time now: a standing Put that has not expired and no bar. */
  ghost predicate Redeemable(ttl: int, h: seq<Event>, id: string, user: string, now: int) {
    && (exists i, expires :: Stands(h, i, id, Record(user, expires)) && now <= expires)
    && !Barred(ttl, h, user, now)
  }

  lemma {:induction false} TokensAreStandingPuts(ttl: int, h: seq<Event>, id: string) returns (i: int)
    ensures var s := After(ttl, h, Never(|h|));
      if id in s.tokens then Stands(h, i, id, s.tokens[id])
      else forall k, rec :: !Stands(h, k, id, rec)
    decreases |h|
  {
    i := 0;
    if h != [] {
      var n := |h| - 1;
      assert Never(|h|)[..n] == Never(n);
      var p := h[..n];
      i := TokensAreStandingPuts(ttl, p, id);
      var e := h[n];
      if e.op.Put? && e.op.id == id {
        i := n;
      } else {
        forall k, rec | Stands(h, k, id, rec) ensures Stands(p, k, id, rec) {
          assert forall j :: 0 <= j < n ==> p[j] == h[j];
        }
        forall k, rec | Stands(p, k, id, rec) && !Mentions(e, id) && !Revokes(e, rec.user)
          ensures Stands(h, k, id, rec)
        {
          assert forall j :: 0 <= j < n ==> p[j] == h[j];
        }
        OneStands(p, id);
      }
    }
  }

  /** At most one Put of an id stands. */
  lemma OneStands(h: seq<Event>, id: string)
    ensures forall i, j, r, q :: Stands(h, i, id, r) && Stands(h, j, id, q) ==> i == j && r == q
  {
  }

  lemma {:induction false} RevocationsAreBars(ttl: int, h: seq<Event>, user: string, now: int)
    requires Ordered(h)
    ensures var r := After(ttl, h, Never(|h|)).revokedUntil;
      (user in r && now < r[user]) <==> Barred(ttl, h, user, now)
    ensures var r := After(ttl, h, Never(|h|)).revokedUntil;
      user in r ==> exists j :: 0 <= j < |h| && r[user] == h[j].now + ttl
    decreases |h|
  {
    if h != [] {
      var n := |h| - 1;
      var p := h[..n];
      assert Never(|h|)[..n] == Never(n);
      RevocationsAreBars(ttl, p, user, now);
      assert forall j :: 0 <= j < n ==> p[j] == h[j];
      if Revokes(h[n], user) {
        assert Barred(ttl, h, user, now) <==> now < h[n].now + ttl;
      } else {
        assert Barred(ttl, h, user, now) <==> Barred(ttl, p, user, now);
      }
    }
  }

  /** On the program's store, collections included, Consume of id at time now answers user. */
  ghost predicate Succeeds(ttl: int, h: seq<Event>, id: string, user: string, now: int) {
    var s, e := Program(ttl, h), Event(now, Consume(id));
    Step(ttl, s, e, Due(s, now)).1 == Redeemed(Some(user))
  }

  /** Main result: on the program's store, collections included, Consume succeeds exactly when the
      history holds an unexpired Put that nothing has used up or overruled and no revocation is in force. */
  lemma ConsumeIff(ttl: int, h: seq<Event>, id: string, user: string, now: int)
    requires Ordered(h + [Event(now, Consume(id))])
    ensures Succeeds(ttl, h, id, user, now) <==> Redeemable(ttl, h, id, user, now)
  {
    var e := Event(now, Consume(id));
    var s, u := Program(ttl, h), After(ttl, h, Never(|h|));
    var collect := ProgramIsSchedule(ttl, h);
    CollectionInvisible(ttl, h, e, collect, Due(s, now));
    forall i, j | 0 <= i < j < |h| ensures h[i].now <= h[j].now {
      assert (h + [e])[i] == h[i] && (h + [e])[j] == h[j];
    }
    var i := TokensAreStandingPuts(ttl, h, id);
    OneStands(h, id);
    RevocationsAreBars(ttl, h, user, now);
    if id in u.tokens {
      RevocationsAreBars(ttl, h, u.tokens[id].user, now);
      assert Stands(h, i, id, Record(u.tokens[id].user, u.tokens[id].expires));
    }
  }

  // ----- Consequences -----

  /** A token consumed once needs a new Put before it is consumed successfully again: each Put yields at most
      one successful Consume. */
  lemma RedeemedOnce(ttl: int, h: seq<Event>, k: nat, id: string, user: string, now: int)
    requires Ordered(h + [Event(now, Consume(id))])
    requires Succeeds(ttl, h, id, user, now) && k < |h| && h[k].op == Consume(id)
    ensures exists i :: k < i < |h| && h[i].op.Put? && h[i].op.id == id && h[i].op.user == user
  {
    ConsumeIff(ttl, h, id, user, now);
    var i, expires :| Stands(h, i, id, Record(user, expires)) && now <= expires;
    assert k < i;
  }

  /** After RevokeUser at time t no Consume for that user succeeds before t + ttl, and tokens stored before it
      never do. */
  lemma RevokedStaysOut(ttl: int, h: seq<Event>, k: nat, id: string, user: string, now: int)
    requires Ordered(h + [Event(now, Consume(id))])
    requires Succeeds(ttl, h, id, user, now) && k < |h| && Revokes(h[k], user)
    ensures h[k].now + ttl <= now
    ensures exists i :: k < i < |h| && h[i].op.Put? && h[i].op.id == id && h[i].op.user == user
  {
    ConsumeIff(ttl, h, id, user, now);
    var i, expires :| Stands(h, i, id, Record(user, expires)) && now <= expires;
    assert k < i;
  }

  /** Put does not look at revocations: a token stored while its user is revoked is redeemable again once
      the revocation has lapsed, if it lives long enough. */
  lemma PutDuringRevocation(ttl: int, user: string, id: string)
    requires ttl > 1
    ensures Succeeds(ttl, [Event(0, RevokeUser(user)), Event(1, Put(id, user, 1 + ttl))], id, user, ttl)
  {
    var h := [Event(0, RevokeUser(user)), Event(1, Put(id, user, 1 + ttl))];
    assert Stands(h, 1, id, Record(user, 1 + ttl));
    ConsumeIff(ttl, h, id, user, ttl);
  }

  /** Whether a user is revoked, read off the history: a revocation less than the lifetime ago. */
  lemma RevokedIff(ttl: int, h: seq<Event>, user: string, now: int)
    requires Ordered(h + [Event(now, Revoked(user))])
    ensures var s, e := Program(ttl, h), Event(now, Revoked(user));
      Step(ttl, s, e, Due(s, now)).1
      == Flag(exists j :: 0 <= j < |h| && h[j].op == RevokeUser(user) && now < h[j].now + ttl)
  {
    var e := Event(now, Revoked(user));
    var collect := ProgramIsSchedule(ttl, h);
    CollectionInvisible(ttl, h, e, collect, Due(Program(ttl, h), now));
    forall i, j | 0 <= i < j < |h| ensures h[i].now <= h[j].now {
      assert (h + [e])[i] == h[i] && (h + [e])[j] == h[j];
    }
    RevocationsAreBars(ttl, h, user, now);
    assert Barred(ttl, h, user, now) <==> exists j :: 0 <= j < |h| && h[j].op == RevokeUser(user) && now < h[j].now + ttl;
  }

  // ----- What collection is for -----

  /** The record was put at time since or later. */
  ghost predicate PutSince(h: seq<Event>, id: string, rec: Record, since: int) {
    exists i :: 0 <= i < |h| && h[i].op == Put(id, rec.user, rec.expires) && h[i].now >= since
  }

  lemma PutSinceGrows(h: seq<Event>, e: Event, id: string, rec: Record, since: int)
    requires PutSince(h, id, rec, since)
    ensures PutSince(h + [e], id, rec, since)
  {
    var i :| 0 <= i < |h| && h[i].op == Put(id, rec.user, rec.expires) && h[i].now >= since;
    assert (h + [e])[i] == h[i];
  }

  /** Everything stored outlived the last collection or came after it. */
  ghost predicate KeptSince(h: seq<Event>, s: Store, g: int) {
    && (forall id :: id in s.tokens ==> g <= s.tokens[id].expires || PutSince(h, id, s.tokens[id], g))
    && forall u :: u in s.revokedUntil ==> g < s.revokedUntil[u]
  }

  lemma KeptStep(ttl: int, h: seq<Event>, s: Store, e: Event, g: int)
    requires ttl > 0 && KeptSince(h, s, g) && g <= e.now
    ensures KeptSince(h + [e], Act(ttl, s, e).0, g)
  {
    var s' := Act(ttl, s, e).0;
    forall id | id in s'.tokens ensures g <= s'.tokens[id].expires || PutSince(h + [e], id, s'.tokens[id], g) {
      if e.op.Put? && e.op.id == id {
        assert (h + [e])[|h|] == e;
      } else if PutSince(h, id, s.tokens[id], g) {
        PutSinceGrows(h, e, id, s.tokens[id], g);
      }
    }
  }

  /** The last collection was less than a minute before now, and what is stored outlived it or came after it. */
  ghost predicate Tidy(h: seq<Event>, s: Store, now: int) {
    s.lastGC.Some? && now - MINUTE < s.lastGC.value <= now && KeptSince(h, s, s.lastGC.value)
  }

  lemma TidyStep(ttl: int, h: seq<Event>, s: Store, e: Event, before: int)
    requires ttl > 0 && before <= e.now && (s == EMPTY || Tidy(h, s, before))
    ensures Tidy(h + [e], Step(ttl, s, e, Due(s, e.now)).0, e.now)
  {
    if Due(s, e.now) {
      KeptStep(ttl, h, Sweep(s, e.now), e, e.now);
    } else {
      KeptStep(ttl, h, s, e, s.lastGC.value);
    }
  }

  lemma {:induction false} TidyProgram(ttl: int, h: seq<Event>)
    requires ttl > 0 && Ordered(h) && h != []
    ensures Tidy(h, Program(ttl, h), h[|h| - 1].now)
    decreases |h|
  {
    var n := |h| - 1;
    if n > 0 {
      TidyProgram(ttl, h[..n]);
    }
    assert h[..n] + [h[n]] == h;
    TidyStep(ttl, h[..n], Program(ttl, h[..n]), h[n], if n > 0 then h[n - 1].now else h[n].now);
  }

  /** Main result: the store does not fill up. Right after any call, every token in it expires no earlier than a minute
      ago or was put within the last minute, and no bar lapsed more than a minute ago. */
  lemma NothingOutstays(ttl: int, h: seq<Event>)
    requires ttl > 0 && Ordered(h) && h != []
    ensures var s, now := Program(ttl, h), h[|h| - 1].now;
      && (forall id :: id in s.tokens ==>
            now - MINUTE < s.tokens[id].expires
            || exists i :: 0 <= i < |h| && now - MINUTE < h[i].now
                 && h[i].op == Put(id, s.tokens[id].user, s.tokens[id].expires))
      && forall u :: u in s.revokedUntil ==> now - MINUTE < s.revokedUntil[u]
  {
    TidyProgram(ttl, h);
    var s, now := Program(ttl, h), h[|h| - 1].now;
    forall id | id in s.tokens && s.tokens[id].expires <= now - MINUTE
      ensures exists i :: 0 <= i < |h| && now - MINUTE < h[i].now
                && h[i].op == Put(id, s.tokens[id].user, s.tokens[id].expires)
    {
      assert PutSince(h, id, s.tokens[id], s.lastGC.value);
    }
  }
}
