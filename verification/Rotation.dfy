/** Issuing and rotating refresh tokens: irmik/auth/jwt.go over the in-memory store.

    Signing is abstracted: a presented token is what verification makes of it, its claims or nothing.
    Fresh ids come from outside and may be missing when the system has no randomness. */
module Rotation {
  import opened Common
  import opened Refresh

  datatype Claims = Claims(typ: string, id: string, subject: string)

  datatype Config = Config(ttl: int, refreshTTL: int, secretSet: bool)

  /** The outside world during one Refresh: three clock readings and a fresh id. */
  datatype Inputs = Inputs(consumedAt: int, checkedAt: int, storedAt: int, freshId: Option<string>)

  function ParseRefresh(presented: Option<Claims>): Option<Claims> {
    if presented.Some? && presented.value.typ == "refresh" && presented.value.id != "" && presented.value.subject != ""
    then presented else None
  }

  /** One store call of the program, collection included. */
  function Call(cfg: Config, s: Store, now: int, op: Op): (Store, Answer) {
    Step(cfg.ttl, s, Event(now, op), Due(s, now))
  }

  // ----- Specification -----

  function Issue(cfg: Config, s: Store, user: string, freshId: Option<string>, now: int): (Store, Option<Claims>) {
    if !cfg.secretSet || freshId.None? then (s, None) else
    (Call(cfg, s, now, Put(freshId.value, user, now + cfg.refreshTTL)).0,
     Some(Claims("refresh", freshId.value, user)))
  }

  function Rotate(cfg: Config, s: Store, presented: Option<Claims>, user: string, inputs: Inputs): (Store, Option<Claims>) {
    var claims := ParseRefresh(presented);
    if claims.None? then (s, None) else
    var subject := claims.value.subject;
    var (s1, redeemed) := Call(cfg, s, inputs.consumedAt, Consume(claims.value.id));
    if redeemed != Redeemed(Some(subject)) then (s1, None) else
    var (s2, flag) := Call(cfg, s1, inputs.checkedAt, Revoked(subject));
    if flag == Flag(true) || user != subject then (s2, None) else
    Issue(cfg, s2, user, inputs.freshId, inputs.storedAt)
  }

  // ----- The authenticator over its store -----

  class Authenticator {
    const cfg: Config
    const store: MemoryRefreshStore

    ghost predicate Valid() { store.ttl == cfg.ttl }

    constructor (refreshTTL: int, secretSet: bool)
      ensures Valid() && fresh(store) && store.State() == EMPTY
      ensures cfg == Config(StoreTTL(refreshTTL), StoreTTL(refreshTTL), secretSet)
    {
      var ttl := if refreshTTL <= 0 then DEFAULT_TTL else refreshTTL;
      store := new MemoryRefreshStore(ttl);
      cfg := Config(ttl, ttl, secretSet);
    }

    method IssueTokenPair(user: string, freshId: Option<string>, now: int) returns (refresh: Option<Claims>)
      requires Valid()
      modifies store
      ensures (store.State(), refresh) == Issue(cfg, old(store.State()), user, freshId, now)
    {
      if !cfg.secretSet || freshId.None? {
        return None;
      }
      store.Put(freshId.value, user, now + cfg.refreshTTL, now);
      return Some(Claims("refresh", freshId.value, user));
    }

    method Refresh(presented: Option<Claims>, user: string, inputs: Inputs) returns (refresh: Option<Claims>)
      requires Valid()
      modifies store
      ensures (store.State(), refresh) == Rotate(cfg, old(store.State()), presented, user, inputs)
    {
      var claims := ParseRefresh(presented);
      if claims.None? {
        return None;
      }
      var subject := claims.value.subject;
      var redeemed := store.Consume(claims.value.id, inputs.consumedAt);
      if redeemed != Some(subject) {
        return None;
      }
      var revoked := store.Revoked(subject, inputs.checkedAt);
      if revoked || user != subject {
        return None;
      }
      refresh := IssueTokenPair(user, inputs.freshId, inputs.storedAt);
    }
  }

  // ----- One Refresh -----

  lemma SubmapSize<K, V>(a: map<K, V>, b: map<K, V>)
    requires a.Keys <= b.Keys
    ensures |a| <= |b|
  {
    SubsetSize(a.Keys, b.Keys);
    assert |a| == |a.Keys| && |b| == |b.Keys|;
  }

  lemma {:induction false} SubsetSize<K>(a: set<K>, b: set<K>)
    requires a <= b
    ensures |a| <= |b|
    decreases a
  {
    if a != {} {
      var x :| x in a;
      SubsetSize(a - {x}, b - {x});
    }
  }

  lemma CallSize(ttl: int, s: Store, e: Event, collect: bool)
    ensures var s' := Step(ttl, s, e, collect).0;
      && (!e.op.Put? ==> s'.tokens.Keys <= s.tokens.Keys)
      && (e.op.Put? ==> s'.tokens.Keys <= s.tokens.Keys + {e.op.id})
      && (e.op.Consume? && Step(ttl, s, e, collect).1 != Redeemed(None) ==> s'.tokens.Keys <= s.tokens.Keys - {e.op.id})
      && (e.op.Consume? ==> e.op.id !in s'.tokens)
      && (e.op.Consume? && Step(ttl, s, e, collect).1 != Redeemed(None) ==> e.op.id in s.tokens)
  {
  }

  /** No Refresh, successful or not, leaves more tokens stored than there were. */
  lemma RefreshNeverGrows(cfg: Config, s: Store, presented: Option<Claims>, user: string, inputs: Inputs)
    ensures |Rotate(cfg, s, presented, user, inputs).0.tokens| <= |s.tokens|
  {
    var s' := Rotate(cfg, s, presented, user, inputs).0;
    var claims := ParseRefresh(presented);
    if claims.Some? {
      var id, subject := claims.value.id, claims.value.subject;
      var (s1, redeemed) := Call(cfg, s, inputs.consumedAt, Consume(id));
      CallSize(cfg.ttl, s, Event(inputs.consumedAt, Consume(id)), Due(s, inputs.consumedAt));
      SubmapSize(s1.tokens, s.tokens);
      if redeemed == Redeemed(Some(subject)) {
        var s2 := Call(cfg, s1, inputs.checkedAt, Revoked(subject)).0;
        CallSize(cfg.ttl, s1, Event(inputs.checkedAt, Revoked(subject)), Due(s1, inputs.checkedAt));
        SubmapSize(s2.tokens, s1.tokens);
        if inputs.freshId.Some? {
          var put := Put(inputs.freshId.value, user, inputs.storedAt + cfg.refreshTTL);
          CallSize(cfg.ttl, s2, Event(inputs.storedAt, put), Due(s2, inputs.storedAt));
          SubsetSize(s'.tokens.Keys, (s.tokens.Keys - {id}) + {inputs.freshId.value});
        }
      }
    }
  }

  lemma StaysOut(cfg: Config, s: Store, now: int, op: Op, id: string)
    requires id !in s.tokens && (op.Put? ==> op.id != id)
    ensures id !in Call(cfg, s, now, op).0.tokens
  {
  }

  /** A token that parses is spent by any Refresh, even one refused for naming the wrong user: a later
      Refresh with it fails, whoever asks. */
  lemma RefreshSpends(cfg: Config, s: Store, presented: Option<Claims>, user: string, inputs: Inputs,
                      user2: string, inputs2: Inputs)
    requires ParseRefresh(presented).Some?
    requires inputs.freshId != Some(presented.value.id)
    ensures var s' := Rotate(cfg, s, presented, user, inputs).0;
      Rotate(cfg, s', presented, user2, inputs2).1 == None
  {
    var id, subject := presented.value.id, presented.value.subject;
    var s1 := Call(cfg, s, inputs.consumedAt, Consume(id)).0;
    assert id !in s1.tokens;
    var s2 := Call(cfg, s1, inputs.checkedAt, Revoked(subject)).0;
    StaysOut(cfg, s1, inputs.checkedAt, Revoked(subject), id);
    if inputs.freshId.Some? {
      StaysOut(cfg, s2, inputs.storedAt, Put(inputs.freshId.value, user, inputs.storedAt + cfg.refreshTTL), id);
    }
    var s' := Rotate(cfg, s, presented, user, inputs).0;
    assert id !in s'.tokens;
    assert Call(cfg, s', inputs2.consumedAt, Consume(id)).1 == Redeemed(None);
  }

  /** A pair just issued can be refreshed once by its user, until its lifetime ends and unless the user is
      revoked; the answer is a new token for the same user. */
  lemma IssueThenRefresh(cfg: Config, s: Store, user: string, id: string, now: int, inputs: Inputs)
    requires cfg.secretSet && user != "" && id != "" && inputs.freshId.Some?
    requires now <= inputs.consumedAt <= inputs.checkedAt <= inputs.storedAt
    ensures var (s1, token) := Issue(cfg, s, user, Some(id), now);
      Rotate(cfg, s1, token, user, inputs).1
      == if inputs.consumedAt <= now + cfg.refreshTTL
            && !(user in s.revokedUntil && inputs.consumedAt < s.revokedUntil[user])
         then Some(Claims("refresh", inputs.freshId.value, user)) else None
  {
    var (s1, token) := Issue(cfg, s, user, Some(id), now);
    assert id in s1.tokens && s1.tokens[id] == Record(user, now + cfg.refreshTTL);
    var (s2, redeemed) := Call(cfg, s1, inputs.consumedAt, Consume(id));
    if inputs.consumedAt <= now + cfg.refreshTTL {
      assert redeemed == Redeemed(
        if user in s.revokedUntil && inputs.consumedAt < s.revokedUntil[user] then None else Some(user));
    }
  }

  // ----- What a rotation leaves -----

  predicate InForce(s: Store, user: string, now: int) { user in s.revokedUntil && now < s.revokedUntil[user] }

  /** From t on the two stores bar the same users. */
  ghost predicate SameBars(s: Store, s': Store, t: int) {
    forall user, now | now >= t :: InForce(s', user, now) <==> InForce(s, user, now)
  }

  lemma CallKeeps(cfg: Config, s: Store, now: int, op: Op)
    requires !op.RevokeUser?
    ensures SameBars(s, Call(cfg, s, now, op).0, now)
  {
  }

  lemma SameBarsOn(s: Store, s1: Store, s2: Store, t: int, t1: int)
    requires SameBars(s, s1, t) && SameBars(s1, s2, t1) && t <= t1
    ensures SameBars(s, s2, t1)
  {
    forall user, now | now >= t1 ensures InForce(s2, user, now) <==> InForce(s, user, now) {
      assert InForce(s1, user, now) <==> InForce(s, user, now);
    }
  }

  /** The presented token is a refresh token of user that the store holds unexpired, and user is not barred. */
  predicate Good(s: Store, presented: Option<Claims>, user: string, now: int) {
    && presented.Some? && presented.value.typ == "refresh" && presented.value.id != "" && user != ""
    && presented.value.subject == user
    && presented.value.id in s.tokens && s.tokens[presented.value.id].user == user
    && now <= s.tokens[presented.value.id].expires
    && !InForce(s, user, now)
  }

  predicate InOrder(inputs: Inputs) { inputs.consumedAt <= inputs.checkedAt <= inputs.storedAt }

  lemma ConsumeAnswers(cfg: Config, s: Store, id: string, now: int)
    ensures var rec := if id in s.tokens then Some(s.tokens[id]) else None;
      Call(cfg, s, now, Consume(id)).1
      == Redeemed(if rec.Some? && now <= rec.value.expires && !InForce(s, rec.value.user, now) then Some(rec.value.user) else None)
  {
  }

  lemma RevokedAnswers(cfg: Config, s: Store, user: string, now: int)
    ensures Call(cfg, s, now, Revoked(user)).1 == Flag(InForce(s, user, now))
  {
  }

  lemma PutStores(cfg: Config, s: Store, id: string, user: string, expires: int, now: int)
    ensures var s' := Call(cfg, s, now, Put(id, user, expires)).0;
      id in s'.tokens && s'.tokens[id] == Record(user, expires)
  {
  }

  /** Main result: a Refresh answers exactly when the token presented is a good one of the user's and the system can make
      a new one; the new one is then in the store, the user's, and lives for the full lifetime. */
  lemma RotateIff(cfg: Config, s: Store, presented: Option<Claims>, user: string, inputs: Inputs)
    requires InOrder(inputs)
    ensures var (s', token) := Rotate(cfg, s, presented, user, inputs);
      && (token.Some? <==> Good(s, presented, user, inputs.consumedAt) && cfg.secretSet && inputs.freshId.Some?)
      && (token.Some? ==>
            && token == Some(Claims("refresh", inputs.freshId.value, user))
            && inputs.freshId.value in s'.tokens
            && s'.tokens[inputs.freshId.value] == Record(user, inputs.storedAt + cfg.refreshTTL)
            && SameBars(s, s', inputs.storedAt))
  {
    var claims := ParseRefresh(presented);
    if claims.Some? {
      var subject := claims.value.subject;
      ConsumeAnswers(cfg, s, claims.value.id, inputs.consumedAt);
      CallKeeps(cfg, s, inputs.consumedAt, Consume(claims.value.id));
      var (s1, redeemed) := Call(cfg, s, inputs.consumedAt, Consume(claims.value.id));
      if redeemed == Redeemed(Some(subject)) {
        RevokedAnswers(cfg, s1, subject, inputs.checkedAt);
        CallKeeps(cfg, s1, inputs.checkedAt, Revoked(subject));
        var s2 := Call(cfg, s1, inputs.checkedAt, Revoked(subject)).0;
        SameBarsOn(s, s1, s2, inputs.consumedAt, inputs.checkedAt);
        NotBarredLater(s, s1, subject, inputs.consumedAt, inputs.checkedAt);
        if inputs.freshId.Some? {
          var put := Put(inputs.freshId.value, user, inputs.storedAt + cfg.refreshTTL);
          PutStores(cfg, s2, inputs.freshId.value, user, inputs.storedAt + cfg.refreshTTL, inputs.storedAt);
          CallKeeps(cfg, s2, inputs.storedAt, put);
          SameBarsOn(s, s2, Call(cfg, s2, inputs.storedAt, put).0, inputs.checkedAt, inputs.storedAt);
        }
      }
    }
  }

  lemma NotBarredLater(s: Store, s': Store, user: string, t: int, later: int)
    requires SameBars(s, s', t) && !InForce(s, user, t) && t <= later
    ensures !InForce(s', user, later)
  {
    assert !InForce(s, user, later);
  }

  /** So a token from a rotation is as good as one from a login: presented next, it is answered by a token of the same
      user up to its lifetime and unless the user is barred. */
  lemma RotateThenRotate(cfg: Config, s: Store, presented: Option<Claims>, user: string, inputs: Inputs, next: Inputs)
    requires InOrder(inputs) && InOrder(next) && inputs.storedAt <= next.consumedAt
    requires Rotate(cfg, s, presented, user, inputs).1.Some? && inputs.freshId != Some("") && next.freshId.Some?
    ensures var (s', token) := Rotate(cfg, s, presented, user, inputs);
      Rotate(cfg, s', token, user, next).1
      == if next.consumedAt <= inputs.storedAt + cfg.refreshTTL && !InForce(s, user, next.consumedAt)
         then Some(Claims("refresh", next.freshId.value, user)) else None
  {
    RotateIff(cfg, s, presented, user, inputs);
    var (s', token) := Rotate(cfg, s, presented, user, inputs);
    RotateIff(cfg, s', token, user, next);
    assert InForce(s', user, next.consumedAt) <==> InForce(s, user, next.consumedAt);
  }

  /** A client that refreshes again and again, each time with the token it got last. */
  function Chain(cfg: Config, s: Store, token: Option<Claims>, user: string, rounds: seq<Inputs>): (Store, Option<Claims>)
    decreases |rounds|
  {
    if rounds == [] then (s, token) else
    var (s1, t1) := Chain(cfg, s, token, user, rounds[..|rounds| - 1]);
    Rotate(cfg, s1, t1, user, rounds[|rounds| - 1])
  }

  /** The rounds happen one after the other, each with a fresh id. */
  ghost predicate Rounds(rounds: seq<Inputs>) {
    && (forall i :: 0 <= i < |rounds| ==> InOrder(rounds[i]) && rounds[i].freshId.Some? && rounds[i].freshId != Some(""))
    && forall i, j :: 0 <= i && j == i + 1 < |rounds| ==> rounds[i].storedAt <= rounds[j].consumedAt
  }

  /** Every round but the first comes within the lifetime of the token from the one before, and the user is barred at
      none of them. */
  ghost predicate InTime(cfg: Config, s: Store, user: string, rounds: seq<Inputs>) {
    && (forall i, j :: 0 <= i && j == i + 1 < |rounds| ==> rounds[j].consumedAt <= rounds[i].storedAt + cfg.refreshTTL)
    && forall i :: 0 <= i < |rounds| ==> !InForce(s, user, rounds[i].consumedAt)
  }

  ghost predicate Leads(cfg: Config, s: Store, s': Store, token: Option<Claims>, user: string, last: Inputs) {
    && last.freshId.Some? && token == Some(Claims("refresh", last.freshId.value, user))
    && last.freshId.value in s'.tokens && s'.tokens[last.freshId.value] == Record(user, last.storedAt + cfg.refreshTTL)
    && SameBars(s, s', last.storedAt)
  }

  /** Main result: a session lives on through any number of rotations. Started with a good token, a chain of rotations
      ends with a token if and only if every round came in time and unbarred, and that token is then as good as new. */
  lemma {:induction false} ChainLives(cfg: Config, s: Store, token: Option<Claims>, user: string, rounds: seq<Inputs>)
    requires cfg.secretSet && rounds != [] && Rounds(rounds) && Good(s, token, user, rounds[0].consumedAt)
    ensures var (s', t) := Chain(cfg, s, token, user, rounds);
      && (t.Some? <==> InTime(cfg, s, user, rounds))
      && (t.Some? ==> Leads(cfg, s, s', t, user, rounds[|rounds| - 1]))
    decreases |rounds|
  {
    var n := |rounds| - 1;
    var before, round := rounds[..n], rounds[n];
    var (s1, t1) := Chain(cfg, s, token, user, before);
    RotateIff(cfg, s1, t1, user, round);
    if n > 0 {
      ChainLives(cfg, s, token, user, before);
      InTimeGrows(cfg, s, user, rounds);
      if t1.Some? {
        var last := before[n - 1];
        assert last == rounds[n - 1] && last.storedAt <= round.consumedAt;
        assert InForce(s1, user, round.consumedAt) <==> InForce(s, user, round.consumedAt);
        LeadsOn(cfg, s, s1, Chain(cfg, s, token, user, rounds).0, last.storedAt, round);
      }
    }
  }

  lemma LeadsOn(cfg: Config, s: Store, s1: Store, s2: Store, t: int, round: Inputs)
    requires SameBars(s, s1, t) && t <= round.storedAt
    ensures SameBars(s1, s2, round.storedAt) ==> SameBars(s, s2, round.storedAt)
  {
    if SameBars(s1, s2, round.storedAt) {
      SameBarsOn(s, s1, s2, t, round.storedAt);
    }
  }

  lemma InTimeGrows(cfg: Config, s: Store, user: string, rounds: seq<Inputs>)
    requires |rounds| > 1
    ensures var n := |rounds| - 1;
      InTime(cfg, s, user, rounds)
      <==> InTime(cfg, s, user, rounds[..n]) && rounds[n].consumedAt <= rounds[n - 1].storedAt + cfg.refreshTTL
           && !InForce(s, user, rounds[n].consumedAt)
  {
    var n := |rounds| - 1;
    assert forall i :: 0 <= i < n ==> rounds[..n][i] == rounds[i];
  }

  // ----- Concurrent rotations -----

  /** A Refresh between its store calls. */
  datatype Phase = Taken(subject: string, user: string) | Cleared(user: string)

  datatype World = World(store: Store, pending: map<nat, Phase>, issued: nat)

  /** One critical section of one goroutine; collect says whether the store collects first. */
  datatype Move =
    | IssuePair(user: string, id: string, expires: int)
    | Take(tid: nat, claims: Claims, user: string)
    | Check(tid: nat)
    | Mint(tid: nat, id: string, expires: int)
    | Abandon(tid: nat)
    | RevokeAll(user: string)

  function Next(ttl: int, w: World, m: Move, now: int, collect: bool): World {
    match m
    case IssuePair(user, id, expires) =>
      World(Step(ttl, w.store, Event(now, Put(id, user, expires)), collect).0, w.pending, w.issued + 1)
    case Take(tid, claims, user) =>
      if tid in w.pending || ParseRefresh(Some(claims)).None? then w else
      var (s, redeemed) := Step(ttl, w.store, Event(now, Consume(claims.id)), collect);
      if redeemed == Redeemed(Some(claims.subject))
      then w.(store := s, pending := w.pending[tid := Taken(claims.subject, user)])
      else w.(store := s)
    case Check(tid) =>
      if tid !in w.pending || !w.pending[tid].Taken? then w else
      var Taken(subject, user) := w.pending[tid];
      var (s, flag) := Step(ttl, w.store, Event(now, Revoked(subject)), collect);
      if flag == Flag(true) || user != subject
      then w.(store := s, pending := w.pending - {tid})
      else w.(store := s, pending := w.pending[tid := Cleared(user)])
    case Mint(tid, id, expires) =>
      if tid !in w.pending || !w.pending[tid].Cleared? then w else
      w.(store := Step(ttl, w.store, Event(now, Put(id, w.pending[tid].user, expires)), collect).0,
         pending := w.pending - {tid})
    case Abandon(tid) => w.(pending := w.pending - {tid})
    case RevokeAll(user) => w.(store := Step(ttl, w.store, Event(now, RevokeUser(user)), collect).0)
  }

  function Play(ttl: int, moves: seq<(Move, int, bool)>): World
    decreases |moves|
  {
    if moves == [] then World(EMPTY, map[], 0) else
    var n := |moves| - 1;
    Next(ttl, Play(ttl, moves[..n]), moves[n].0, moves[n].1, moves[n].2)
  }

  ghost predicate Bounded(w: World) {
    |w.store.tokens| + |w.pending| <= w.issued
  }

  /** What one store call does to the number of stored tokens. */
  lemma StepSize(ttl: int, s: Store, e: Event, collect: bool)
    ensures var (s', answer) := Step(ttl, s, e, collect);
      |s'.tokens| + (if e.op.Consume? && answer != Redeemed(None) then 1 else 0)
      <= |s.tokens| + (if e.op.Put? then 1 else 0)
  {
    var (s', answer) := Step(ttl, s, e, collect);
    CallSize(ttl, s, e, collect);
    if e.op.Put? {
      SubsetSize(s'.tokens.Keys, s.tokens.Keys + {e.op.id});
    } else if e.op.Consume? && answer != Redeemed(None) {
      SubsetSize(s'.tokens.Keys, s.tokens.Keys - {e.op.id});
    } else {
      SubsetSize(s'.tokens.Keys, s.tokens.Keys);
    }
  }

  lemma BoundedTake(ttl: int, w: World, tid: nat, claims: Claims, user: string, now: int, collect: bool)
    requires Bounded(w)
    ensures Bounded(Next(ttl, w, Take(tid, claims, user), now, collect))
  {
    StepSize(ttl, w.store, Event(now, Consume(claims.id)), collect);
  }

  lemma BoundedCheck(ttl: int, w: World, tid: nat, now: int, collect: bool)
    requires Bounded(w)
    ensures Bounded(Next(ttl, w, Check(tid), now, collect))
  {
    if tid in w.pending && w.pending[tid].Taken? {
      StepSize(ttl, w.store, Event(now, Revoked(w.pending[tid].subject)), collect);
      SubmapSize(w.pending - {tid}, w.pending);
    }
  }

  lemma BoundedMint(ttl: int, w: World, tid: nat, id: string, expires: int, now: int, collect: bool)
    requires Bounded(w)
    ensures Bounded(Next(ttl, w, Mint(tid, id, expires), now, collect))
  {
    if tid in w.pending && w.pending[tid].Cleared? {
      StepSize(ttl, w.store, Event(now, Put(id, w.pending[tid].user, expires)), collect);
      assert (w.pending - {tid}).Keys == w.pending.Keys - {tid};
    }
  }

  lemma BoundedStep(ttl: int, w: World, m: Move, now: int, collect: bool)
    requires Bounded(w)
    ensures Bounded(Next(ttl, w, m, now, collect))
  {
    match m
    case IssuePair(user, id, expires) =>
      StepSize(ttl, w.store, Event(now, Put(id, user, expires)), collect);
    case Take(tid, claims, user) => BoundedTake(ttl, w, tid, claims, user, now, collect);
    case Check(tid) => BoundedCheck(ttl, w, tid, now, collect);
    case Mint(tid, id, expires) => BoundedMint(ttl, w, tid, id, expires, now, collect);
    case Abandon(tid) => SubmapSize(w.pending - {tid}, w.pending);
    case RevokeAll(user) =>
      StepSize(ttl, w.store, Event(now, RevokeUser(user)), collect);
  }

  function Logins(moves: seq<(Move, int, bool)>): nat {
    if moves == [] then 0 else Logins(moves[..|moves| - 1]) + (if moves[|moves| - 1].0.IssuePair? then 1 else 0)
  }

  /** Main result: at every moment of every interleaving, the tokens stored and the rotations under way
      together never outnumber the pairs issued by logins. */
  lemma {:induction false} TokensNeverOutnumberLogins(ttl: int, moves: seq<(Move, int, bool)>)
    ensures var w := Play(ttl, moves);
      Bounded(w) && w.issued == Logins(moves) && |w.store.tokens| + |w.pending| <= Logins(moves)
    decreases |moves|
  {
    if moves != [] {
      var n := |moves| - 1;
      TokensNeverOutnumberLogins(ttl, moves[..n]);
      BoundedStep(ttl, Play(ttl, moves[..n]), moves[n].0, moves[n].1, moves[n].2);
    }
  }

  // ----- A presented token is spent for good -----

  /** m presents the token with this id and gets to its Consume. */
  predicate Presents(w: World, m: Move, id: string) {
    && m.Take? && m.tid !in w.pending && m.claims.id == id
    && m.claims.typ == "refresh" && id != "" && m.claims.subject != ""
  }

  predicate Issues(m: Move, id: string) { (m.IssuePair? || m.Mint?) && m.id == id }

  lemma NotStoredStep(ttl: int, w: World, m: Move, now: int, collect: bool, id: string)
    requires !Issues(m, id)
    ensures id !in w.store.tokens || Presents(w, m, id) ==> id !in Next(ttl, w, m, now, collect).store.tokens
    ensures id !in w.store.tokens && Presents(w, m, id) ==> Next(ttl, w, m, now, collect).pending == w.pending
  {
  }

  /** No move from k on issues the id anew. */
  ghost predicate NotIssuedAgain(moves: seq<(Move, int, bool)>, k: nat, id: string) {
    forall j :: k <= j < |moves| ==> !Issues(moves[j].0, id)
  }

  lemma {:induction false} SpentStaysOut(ttl: int, moves: seq<(Move, int, bool)>, k: nat, id: string)
    requires k < |moves| && Presents(Play(ttl, moves[..k]), moves[k].0, id) && NotIssuedAgain(moves, k + 1, id)
    ensures id !in Play(ttl, moves).store.tokens
    decreases |moves|
  {
    var n := |moves| - 1;
    var p := moves[..n];
    if k < n {
      assert p[..k] == moves[..k];
      SpentStaysOut(ttl, p, k, id);
    }
    NotStoredStep(ttl, Play(ttl, p), moves[n].0, moves[n].1, moves[n].2, id);
  }

  /** Main result: once a token has been presented, whoever presented it and whatever came of it, it is not stored and
      presenting it again gets nowhere, in every interleaving, until its id is issued again. */
  lemma PresentedIsSpent(ttl: int, moves: seq<(Move, int, bool)>, k: nat, id: string, again: Move, now: int, collect: bool)
    requires k < |moves| && Presents(Play(ttl, moves[..k]), moves[k].0, id) && NotIssuedAgain(moves, k + 1, id)
    requires Presents(Play(ttl, moves), again, id)
    ensures id !in Play(ttl, moves).store.tokens
    ensures Next(ttl, Play(ttl, moves), again, now, collect).pending == Play(ttl, moves).pending
  {
    SpentStaysOut(ttl, moves, k, id);
    NotStoredStep(ttl, Play(ttl, moves), again, now, collect, id);
  }

  // ----- Alone, the steps are one Refresh -----

  /** What becomes of a rotation whose user has been cleared. */
  function Ends(cfg: Config, w: World, tid: nat, inputs: Inputs): World {
    if !cfg.secretSet || inputs.freshId.None? then Next(cfg.ttl, w, Abandon(tid), inputs.storedAt, false)
    else Next(cfg.ttl, w, Mint(tid, inputs.freshId.value, inputs.storedAt + cfg.refreshTTL), inputs.storedAt,
              Due(w.store, inputs.storedAt))
  }

  /** Take, Check and Mint of one Refresh with nobody in between, the store collecting when it is due. */
  function Alone(cfg: Config, w: World, tid: nat, claims: Claims, user: string, inputs: Inputs): World {
    var w1 := Next(cfg.ttl, w, Take(tid, claims, user), inputs.consumedAt, Due(w.store, inputs.consumedAt));
    Ends(cfg, Next(cfg.ttl, w1, Check(tid), inputs.checkedAt, Due(w1.store, inputs.checkedAt)), tid, inputs)
  }

  /** A goroutine with no rotation under way. */
  lemma Idle(cfg: Config, w: World, tid: nat, inputs: Inputs)
    requires tid !in w.pending
    ensures Next(cfg.ttl, w, Check(tid), inputs.checkedAt, Due(w.store, inputs.checkedAt)) == w
    ensures Ends(cfg, w, tid, inputs) == w
  {
    assert w.pending - {tid} == w.pending;
  }

  lemma EndsCleared(cfg: Config, w: World, tid: nat, user: string, inputs: Inputs)
    requires tid !in w.pending
    ensures Ends(cfg, w.(pending := w.pending[tid := Cleared(user)]), tid, inputs)
         == w.(store := Issue(cfg, w.store, user, inputs.freshId, inputs.storedAt).0)
  {
    assert w.pending[tid := Cleared(user)] - {tid} == w.pending;
  }

  lemma ChecksTaken(cfg: Config, w: World, tid: nat, subject: string, user: string, now: int)
    requires tid !in w.pending
    ensures var (s, flag) := Call(cfg, w.store, now, Revoked(subject));
      Next(cfg.ttl, w.(pending := w.pending[tid := Taken(subject, user)]), Check(tid), now, Due(w.store, now))
      == if flag == Flag(true) || user != subject then w.(store := s)
         else w.(store := s, pending := w.pending[tid := Cleared(user)])
  {
    assert w.pending[tid := Taken(subject, user)] - {tid} == w.pending;
    assert w.pending[tid := Taken(subject, user)][tid := Cleared(user)] == w.pending[tid := Cleared(user)];
  }

  /** At any moment of any interleaving, a Refresh nobody interrupts leaves the store the one-instant form leaves. */
  lemma AloneIsRotate(cfg: Config, w: World, tid: nat, claims: Claims, user: string, inputs: Inputs)
    requires tid !in w.pending
    ensures Alone(cfg, w, tid, claims, user, inputs) == w.(store := Rotate(cfg, w.store, Some(claims), user, inputs).0)
  {
    var (s1, redeemed) := Call(cfg, w.store, inputs.consumedAt, Consume(claims.id));
    if ParseRefresh(Some(claims)).None? {
      Idle(cfg, w, tid, inputs);
    } else if redeemed != Redeemed(Some(claims.subject)) {
      Idle(cfg, w.(store := s1), tid, inputs);
    } else {
      ChecksTaken(cfg, w.(store := s1), tid, claims.subject, user, inputs.checkedAt);
      var (s2, flag) := Call(cfg, s1, inputs.checkedAt, Revoked(claims.subject));
      if flag == Flag(true) || user != claims.subject {
        Idle(cfg, w.(store := s2), tid, inputs);
      } else {
        EndsCleared(cfg, w.(store := s2), tid, user, inputs);
      }
    }
  }
}
