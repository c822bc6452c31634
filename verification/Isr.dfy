/** Every interleaving of page requests and background renderings in incremental static regeneration:
    serveISR and revalidateAsync of irmik/router/router.go over the store of irmik/cache/memory.go.

    Each step is one critical section or one reading of the clock. Renderings take any time and yield any
    text; the memory store's Get is two sections, so it may delete an entry newer than the one it saw. */
module Isr {
  import opened Common
  import opened IsrStore
  import opened CacheKey

  /** Where a request is. */
  datatype Request =
    | Arrived
    | Found(e: Entry)
    | Deleting(seen: Entry)
    | Fetched(e: Entry, at: int)
    | Usable(e: Entry, at: int)
    | Claiming(e: Entry, at: int)
    | Spawning(e: Entry, at: int)
    | Answering(e: Entry, at: int)
    | ClaimingAfter
    | SpawningAfter
    | Rendering
    | Storing(e: Entry)
    | Done

  datatype Route = Route(path: string, revalidate: int)

  datatype Task = Working(route: Route) | Writing(route: Route, e: Entry) | Clearing(route: Route)

  /** Who set the single-flight mark of a key: a request about to start a background rendering, or that rendering. */
  datatype Owner = ByRequest(r: nat) | ByTask(t: nat)

  /** at is when the entry was fetched from the store and judged is when it was last looked at. */
  datatype Answer = Answer(path: string, status: Verdict, page: Page, fetched: int, judged: int)

  datatype World = World(
    now: int, data: map<string, Entry>, inflight: map<string, Owner>,
    routes: map<nat, Route>, requests: map<nat, Request>, tasks: map<nat, Task>, answers: seq<Answer>)

  datatype Move =
    | Tick(d: nat)
    | Arrive(r: nat, route: Route)
    | Look(r: nat)
    | CheckExpired(r: nat)
    | DeleteExpired(r: nat)
    | CheckAgain(r: nat)
    | CheckStale(r: nat)
    | Claim(r: nat)
    | Spawn(r: nat, t: nat)
    | Write(r: nat)
    | Finish(r: nat, text: Option<string>)
    | Store(r: nat)
    | TaskRender(t: nat, text: Option<string>)
    | TaskStore(t: nat)
    | TaskClear(t: nat)

  /** How the path of a request becomes its cache key. */
  type Keying = string -> string

  /** The router's: the method is fixed and the locale is an option of the router. */
  function RouterKey(locale: string): Keying { path => Key("GET", path, locale) }

  function KeyOf(keying: Keying, route: Route): string { keying(route.path) }

  function Initial(now: int): World { World(now, map[], map[], map[], map[], map[], []) }

  // ----- One request -----

  /** What a step of one request does: its new state, the store, and the answer it gives if any. */
  datatype Effect = Effect(q: Request, data: map<string, Entry>, answer: Option<Answer>)

  function Say(route: Route, status: Verdict, page: Page, fetched: int, now: int): Option<Answer> {
    Some(Answer(route.path, status, page, fetched, now))
  }

  /** The steps of a request that leave the single-flight marks alone. */
  function Advance(keying: Keying, m: Move, q: Request, route: Route, data: map<string, Entry>, now: int): Effect {
    var key := KeyOf(keying, route);
    match (m, q)
    case (Look(_), Arrived) => Effect(if key in data then Found(data[key]) else Rendering, data, None)
    case (CheckExpired(_), Found(e)) => Effect(if Expired(e, now) then Deleting(e) else Fetched(e, now), data, None)
    case (DeleteExpired(_), Deleting(_)) => Effect(Rendering, data - {key}, None)
    case (CheckAgain(_), Fetched(e, at)) =>
      if !Expired(e, now) then Effect(Usable(e, at), data, None)
      else if e.page.text != "" then Effect(ClaimingAfter, data, Say(route, ServeStale, e.page, at, now))
      else Effect(Rendering, data, None)
    case (CheckStale(_), Usable(e, at)) =>
      if Stale(e, now) then Effect(Claiming(e, at), data, None)
      else Effect(Done, data, Say(route, Hit, e.page, at, now))
    case (Write(_), Answering(e, at)) => Effect(Done, data, Say(route, ServeStale, e.page, at, now))
    case (Finish(_, text), Rendering) =>
      if text.None? then Effect(Done, data, None)
      else Effect(Storing(IsrEntry(route.path, text.value, route.revalidate, now)), data, None)
    case (Store(_), Storing(e)) => Effect(Done, data[key := e], Say(route, Miss, e.page, now, now))
    case (_, _) => Effect(q, data, None)
  }

  predicate OfRequest(m: Move) {
    || m.Look? || m.CheckExpired? || m.DeleteExpired? || m.CheckAgain? || m.CheckStale? || m.Write?
    || m.Finish? || m.Store?
  }

  predicate CanClaim(q: Request) { q.Claiming? || q.ClaimingAfter? }

  predicate Claimed(q: Request) { q.Spawning? || q.SpawningAfter? }

  // ----- Steps -----

  predicate Has(w: World, r: nat) { r in w.requests && r in w.routes }

  function Put(w: World, r: nat, q: Request): World { w.(requests := w.requests[r := q]) }

  function Apply(w: World, r: nat, f: Effect): World {
    Put(w, r, f.q).(data := f.data, answers := if f.answer.None? then w.answers else w.answers + [f.answer.value])
  }

  function StepRequest(keying: Keying, w: World, r: nat, m: Move): World
    requires Has(w, r)
  {
    Apply(w, r, Advance(keying, m, w.requests[r], w.routes[r], w.data, w.now))
  }

  function StepArrive(w: World, r: nat, route: Route): World {
    w.(routes := w.routes[r := route], requests := w.requests[r := Arrived])
  }

  /** The locked part of revalidateAsync. */
  function StepClaim(keying: Keying, w: World, r: nat): World
    requires Has(w, r) && CanClaim(w.requests[r])
  {
    var q, key := w.requests[r], KeyOf(keying, w.routes[r]);
    if key in w.inflight then Put(w, r, if q.Claiming? then Answering(q.e, q.at) else Done)
    else Put(w, r, if q.Claiming? then Spawning(q.e, q.at) else SpawningAfter).(inflight := w.inflight[key := ByRequest(r)])
  }

  /** Starting the background task of a claimed key. */
  function StepSpawn(keying: Keying, w: World, r: nat, t: nat): World
    requires Has(w, r) && Claimed(w.requests[r]) && t !in w.tasks
  {
    var q, route := w.requests[r], w.routes[r];
    Put(w, r, if q.Spawning? then Answering(q.e, q.at) else Done)
      .(tasks := w.tasks[t := Working(route)], inflight := w.inflight[KeyOf(keying, route) := ByTask(t)])
  }

  /** The background rendering ends. */
  function StepTaskRender(w: World, t: nat, text: Option<string>): World
    requires t in w.tasks && w.tasks[t].Working?
  {
    var route := w.tasks[t].route;
    w.(tasks := w.tasks[t := if text.None? then Clearing(route)
                             else Writing(route, IsrEntry(route.path, text.value, route.revalidate, w.now))])
  }

  function StepTaskStore(keying: Keying, w: World, t: nat): World
    requires t in w.tasks && w.tasks[t].Writing?
  {
    var Writing(route, e) := w.tasks[t];
    w.(tasks := w.tasks[t := Clearing(route)], data := w.data[KeyOf(keying, route) := e])
  }

  /** The deferred unmarking. */
  function StepTaskClear(keying: Keying, w: World, t: nat): World
    requires t in w.tasks && w.tasks[t].Clearing?
  {
    w.(tasks := w.tasks - {t}, inflight := w.inflight - {KeyOf(keying, w.tasks[t].route)})
  }

  /** One step; a move that does not apply changes nothing. */
  function Step(keying: Keying, w: World, m: Move): World {
    match m
    case Tick(d) => w.(now := w.now + d)
    case Arrive(r, route) =>
      if r in w.requests then w else StepArrive(w, r, route)
    case Claim(r) => if Has(w, r) && CanClaim(w.requests[r]) then StepClaim(keying, w, r) else w
    case Spawn(r, t) => if Has(w, r) && Claimed(w.requests[r]) && t !in w.tasks then StepSpawn(keying, w, r, t) else w
    case TaskRender(t, text) => if t in w.tasks && w.tasks[t].Working? then StepTaskRender(w, t, text) else w
    case TaskStore(t) => if t in w.tasks && w.tasks[t].Writing? then StepTaskStore(keying, w, t) else w
    case TaskClear(t) => if t in w.tasks && w.tasks[t].Clearing? then StepTaskClear(keying, w, t) else w
    case _ => if Has(w, m.r) then StepRequest(keying, w, m.r, m) else w
  }

  function Play(keying: Keying, start: int, moves: seq<Move>): World
    decreases |moves|
  {
    if moves == [] then Initial(start) else Step(keying, Play(keying, start, moves[..|moves| - 1]), moves[|moves| - 1])
  }

  // ----- Single flight -----

  /** r has claimed its key and not yet handed it to a task. */
  predicate Holds(w: World, r: nat) {
    Has(w, r) && Claimed(w.requests[r])
  }

  ghost predicate OwnerOK(keying: Keying, w: World, k: string, o: Owner) {
    match o
    case ByRequest(r) => Holds(w, r) && KeyOf(keying, w.routes[r]) == k
    case ByTask(t) => t in w.tasks && KeyOf(keying, w.tasks[t].route) == k
  }

  /** Marks and owners correspond one to one. */
  ghost predicate FlightOK(keying: Keying, w: World) {
    && w.routes.Keys == w.requests.Keys
    && (forall r :: Holds(w, r) ==> KeyOf(keying, w.routes[r]) in w.inflight && w.inflight[KeyOf(keying, w.routes[r])] == ByRequest(r))
    && (forall t :: t in w.tasks ==> KeyOf(keying, w.tasks[t].route) in w.inflight && w.inflight[KeyOf(keying, w.tasks[t].route)] == ByTask(t))
    && (forall k :: k in w.inflight ==> OwnerOK(keying, w, k, w.inflight[k]))
  }

  /** Steps that neither claim, spawn nor clear keep hands off the marks. */
  lemma FlightUntouched(keying: Keying, w: World, w': World)
    requires FlightOK(keying, w) && w'.inflight == w.inflight && w'.tasks.Keys == w.tasks.Keys
    requires forall t :: t in w.tasks ==> w'.tasks[t].route == w.tasks[t].route
    requires w'.routes.Keys == w'.requests.Keys
    requires forall r :: r in w.routes ==> r in w'.routes && w'.routes[r] == w.routes[r]
    requires forall r :: Holds(w', r) <==> Holds(w, r)
    ensures FlightOK(keying, w')
  {
    forall k | k in w'.inflight ensures OwnerOK(keying, w', k, w'.inflight[k]) {
      assert OwnerOK(keying, w, k, w.inflight[k]);
    }
  }

  lemma FlightClaim(keying: Keying, w: World, r: nat)
    requires FlightOK(keying, w) && Has(w, r) && CanClaim(w.requests[r])
    ensures FlightOK(keying, StepClaim(keying, w, r))
  {
    var w' := StepClaim(keying, w, r);
    assert forall o :: o != r ==> (Holds(w', o) <==> Holds(w, o));
    forall k | k in w'.inflight ensures OwnerOK(keying, w', k, w'.inflight[k]) {
      assert k in w.inflight ==> OwnerOK(keying, w, k, w.inflight[k]);
    }
  }

  lemma FlightSpawn(keying: Keying, w: World, r: nat, t: nat)
    requires FlightOK(keying, w) && Holds(w, r) && t !in w.tasks
    ensures FlightOK(keying, StepSpawn(keying, w, r, t))
  {
    var w' := StepSpawn(keying, w, r, t);
    assert forall o :: o != r ==> (Holds(w', o) <==> Holds(w, o));
    forall k | k in w'.inflight ensures OwnerOK(keying, w', k, w'.inflight[k]) {
      assert k in w.inflight ==> OwnerOK(keying, w, k, w.inflight[k]);
    }
  }

  lemma FlightClear(keying: Keying, w: World, t: nat)
    requires FlightOK(keying, w) && t in w.tasks && w.tasks[t].Clearing?
    ensures FlightOK(keying, StepTaskClear(keying, w, t))
  {
    var w' := StepTaskClear(keying, w, t);
    assert forall o :: Holds(w', o) <==> Holds(w, o);
    forall k | k in w'.inflight ensures OwnerOK(keying, w', k, w'.inflight[k]) {
      assert OwnerOK(keying, w, k, w.inflight[k]);
    }
  }

  /** Ordinary steps neither make nor release a claim. */
  lemma AdvanceKeepsClaim(keying: Keying, m: Move, q: Request, route: Route, data: map<string, Entry>, now: int)
    requires OfRequest(m)
    ensures Claimed(Advance(keying, m, q, route, data, now).q) <==> Claimed(q)
  {
  }

  lemma FlightRequest(keying: Keying, w: World, r: nat, m: Move)
    requires FlightOK(keying, w) && Has(w, r) && OfRequest(m)
    ensures FlightOK(keying, StepRequest(keying, w, r, m))
  {
    AdvanceKeepsClaim(keying, m, w.requests[r], w.routes[r], w.data, w.now);
    FlightUntouched(keying, w, StepRequest(keying, w, r, m));
  }

  lemma FlightArrive(keying: Keying, w: World, r: nat, route: Route)
    requires FlightOK(keying, w) && r !in w.requests
    ensures FlightOK(keying, StepArrive(w, r, route))
  {
    FlightUntouched(keying, w, StepArrive(w, r, route));
  }

  lemma FlightTaskRender(keying: Keying, w: World, t: nat, text: Option<string>)
    requires FlightOK(keying, w) && t in w.tasks && w.tasks[t].Working?
    ensures FlightOK(keying, StepTaskRender(w, t, text))
  {
    FlightUntouched(keying, w, StepTaskRender(w, t, text));
  }

  lemma FlightTaskStore(keying: Keying, w: World, t: nat)
    requires FlightOK(keying, w) && t in w.tasks && w.tasks[t].Writing?
    ensures FlightOK(keying, StepTaskStore(keying, w, t))
  {
    FlightUntouched(keying, w, StepTaskStore(keying, w, t));
  }

  lemma FlightStep(keying: Keying, w: World, m: Move)
    requires FlightOK(keying, w)
    ensures FlightOK(keying, Step(keying, w, m))
  {
    match m {
      case Tick(d) => FlightUntouched(keying, w, w.(now := w.now + d));
      case Arrive(r, route) => if r !in w.requests { FlightArrive(keying, w, r, route); }
      case Claim(r) => if Has(w, r) && CanClaim(w.requests[r]) { FlightClaim(keying, w, r); }
      case Spawn(r, t) => if Holds(w, r) && t !in w.tasks { FlightSpawn(keying, w, r, t); }
      case TaskRender(t, text) =>
        if t in w.tasks && w.tasks[t].Working? { FlightTaskRender(keying, w, t, text); }
      case TaskStore(t) => if t in w.tasks && w.tasks[t].Writing? { FlightTaskStore(keying, w, t); }
      case TaskClear(t) => if t in w.tasks && w.tasks[t].Clearing? { FlightClear(keying, w, t); }
      case _ => if Has(w, m.r) { FlightRequest(keying, w, m.r, m); }
    }
  }

  lemma {:induction false} FlightPlay(keying: Keying, start: int, moves: seq<Move>)
    ensures FlightOK(keying, Play(keying, start, moves))
    decreases |moves|
  {
    if moves != [] {
      var n := |moves| - 1;
      FlightPlay(keying, start, moves[..n]);
      FlightStep(keying, Play(keying, start, moves[..n]), moves[n]);
    }
  }

  /** Main result: in every interleaving a key is marked exactly while one revalidation of it is pending or
      running, and there is never a second. */
  lemma SingleFlight(keying: Keying, start: int, moves: seq<Move>, key: string)
    ensures var w := Play(keying, start, moves); key in w.inflight <==> exists o :: OwnerOK(keying, w, key, o)
    ensures var w := Play(keying, start, moves); forall o, p :: OwnerOK(keying, w, key, o) && OwnerOK(keying, w, key, p) ==> o == p
  {
    FlightPlay(keying, start, moves);
    var w := Play(keying, start, moves);
    forall o | OwnerOK(keying, w, key, o) ensures key in w.inflight && w.inflight[key] == o {
      assert o.ByRequest? ==> Holds(w, o.r);
    }
    if key in w.inflight {
      assert OwnerOK(keying, w, key, w.inflight[key]);
    }
  }

  // ----- Provenance and age -----

  /** e is what isrEntry makes of a page rendered for a path with this key, no later than now. */
  ghost predicate Genuine(keying: Keying, e: Entry, key: string, now: int) {
    && keying(e.page.path) == key
    && e.page.life > 0 && e.page.stamp <= now
    && e.staleAt == Some(e.page.stamp + e.page.life) && e.expiresAt == Some(e.page.stamp + e.page.life * 2)
  }

  /** An entry in the hands of a request, fetched at the given time. */
  ghost predicate InHand(keying: Keying, e: Entry, at: int, key: string, now: int) {
    Genuine(keying, e, key, now) && e.page.stamp <= at <= now && !Expired(e, at)
  }

  /** Such an entry that has been found stale. */
  ghost predicate StaleInHand(keying: Keying, e: Entry, at: int, key: string, now: int) {
    InHand(keying, e, at, key, now) && e.page.stamp + e.page.life < now
  }

  ghost predicate RequestOK(keying: Keying, q: Request, route: Route, now: int) {
    var key := KeyOf(keying, route);
    match q
    case Found(e) => Genuine(keying, e, key, now)
    case Deleting(e) => Genuine(keying, e, key, now) && Expired(e, now)
    case Fetched(e, at) => InHand(keying, e, at, key, now)
    case Usable(e, at) => InHand(keying, e, at, key, now)
    case Claiming(e, at) => StaleInHand(keying, e, at, key, now)
    case Spawning(e, at) => StaleInHand(keying, e, at, key, now)
    case Answering(e, at) => StaleInHand(keying, e, at, key, now)
    case Storing(e) => Genuine(keying, e, key, now) && e.page.path == route.path
    case _ => true
  }

  /** What an answer promises about the body it carried. */
  ghost predicate AnswerOK(keying: Keying, a: Answer) {
    && keying(a.page.path) == keying(a.path)
    && a.page.life > 0 && a.page.stamp <= a.fetched <= a.judged
    && (a.status == Hit ==> a.judged <= a.page.stamp + a.page.life)
    && (a.status == ServeStale ==> a.page.stamp + a.page.life < a.judged && a.fetched <= a.page.stamp + 2 * a.page.life)
    && (a.status == Miss ==> a.page.path == a.path && a.fetched == a.judged)
  }

  ghost predicate DataOK(keying: Keying, data: map<string, Entry>, now: int) {
    forall k :: k in data ==> Genuine(keying, data[k], k, now)
  }

  ghost predicate TaskOK(keying: Keying, t: Task, now: int) {
    t.Writing? ==> Genuine(keying, t.e, KeyOf(keying, t.route), now)
  }

  ghost predicate RequestsOK(keying: Keying, requests: map<nat, Request>, routes: map<nat, Route>, now: int) {
    forall r :: r in requests && r in routes ==> RequestOK(keying, requests[r], routes[r], now)
  }

  lemma OneRequest(keying: Keying, requests: map<nat, Request>, routes: map<nat, Route>, now: int, r: nat, q: Request)
    requires RequestsOK(keying, requests, routes, now) && r in routes && RequestOK(keying, q, routes[r], now)
    ensures RequestsOK(keying, requests[r := q], routes, now)
  {
  }

  ghost predicate PagesOK(keying: Keying, w: World) {
    && w.routes.Keys == w.requests.Keys
    && DataOK(keying, w.data, w.now)
    && RequestsOK(keying, w.requests, w.routes, w.now)
    && (forall t :: t in w.tasks ==> TaskOK(keying, w.tasks[t], w.now))
    && (forall i :: 0 <= i < |w.answers| ==> AnswerOK(keying, w.answers[i]))
  }

  lemma Stamped(keying: Keying, route: Route, text: string, now: int)
    ensures var e := IsrEntry(route.path, text, route.revalidate, now);
      Genuine(keying, e, KeyOf(keying, route), now) && e.page.path == route.path
  {
  }

  ghost predicate EffectOK(keying: Keying, f: Effect, route: Route, now: int) {
    RequestOK(keying, f.q, route, now) && DataOK(keying, f.data, now) && (f.answer.Some? ==> AnswerOK(keying, f.answer.value))
  }

  lemma FetchOK(keying: Keying, m: Move, q: Request, route: Route, data: map<string, Entry>, now: int)
    requires (m.Look? || m.CheckExpired? || m.DeleteExpired?) && RequestOK(keying, q, route, now) && DataOK(keying, data, now)
    ensures EffectOK(keying, Advance(keying, m, q, route, data, now), route, now)
  {
  }

  lemma JudgeOK(keying: Keying, m: Move, q: Request, route: Route, data: map<string, Entry>, now: int)
    requires (m.CheckAgain? || m.CheckStale? || m.Write?) && RequestOK(keying, q, route, now) && DataOK(keying, data, now)
    ensures EffectOK(keying, Advance(keying, m, q, route, data, now), route, now)
  {
  }

  lemma RenderOK(keying: Keying, m: Move, q: Request, route: Route, data: map<string, Entry>, now: int)
    requires (m.Finish? || m.Store?) && RequestOK(keying, q, route, now) && DataOK(keying, data, now)
    ensures EffectOK(keying, Advance(keying, m, q, route, data, now), route, now)
  {
    if m.Finish? && m.text.Some? {
      Stamped(keying, route, m.text.value, now);
    }
  }

  lemma AdvanceOK(keying: Keying, m: Move, q: Request, route: Route, data: map<string, Entry>, now: int)
    requires OfRequest(m) && RequestOK(keying, q, route, now) && DataOK(keying, data, now)
    ensures EffectOK(keying, Advance(keying, m, q, route, data, now), route, now)
  {
    if m.Finish? || m.Store? {
      RenderOK(keying, m, q, route, data, now);
    } else if m.Look? || m.CheckExpired? || m.DeleteExpired? {
      FetchOK(keying, m, q, route, data, now);
    } else {
      JudgeOK(keying, m, q, route, data, now);
    }
  }

  lemma PagesTick(keying: Keying, w: World, d: nat)
    requires PagesOK(keying, w)
    ensures PagesOK(keying, w.(now := w.now + d))
  {
  }

  lemma PagesRequest(keying: Keying, w: World, r: nat, m: Move)
    requires PagesOK(keying, w) && Has(w, r) && OfRequest(m)
    ensures PagesOK(keying, StepRequest(keying, w, r, m))
  {
    AdvanceOK(keying, m, w.requests[r], w.routes[r], w.data, w.now);
    OneRequest(keying, w.requests, w.routes, w.now, r, StepRequest(keying, w, r, m).requests[r]);
  }

  lemma PagesArrive(keying: Keying, w: World, r: nat, route: Route)
    requires PagesOK(keying, w) && r !in w.requests
    ensures PagesOK(keying, StepArrive(w, r, route))
  {
  }

  lemma PagesClaim(keying: Keying, w: World, r: nat)
    requires PagesOK(keying, w) && Has(w, r) && CanClaim(w.requests[r])
    ensures PagesOK(keying, StepClaim(keying, w, r))
  {
    var w' := StepClaim(keying, w, r);
    assert RequestOK(keying, w.requests[r], w.routes[r], w.now);
    OneRequest(keying, w.requests, w.routes, w.now, r, w'.requests[r]);
  }

  lemma PagesSpawn(keying: Keying, w: World, r: nat, t: nat)
    requires PagesOK(keying, w) && Holds(w, r) && t !in w.tasks
    ensures PagesOK(keying, StepSpawn(keying, w, r, t))
  {
  }

  lemma PagesTaskRender(keying: Keying, w: World, t: nat, text: Option<string>)
    requires PagesOK(keying, w) && t in w.tasks && w.tasks[t].Working?
    ensures PagesOK(keying, StepTaskRender(w, t, text))
  {
  }

  lemma PagesTaskStore(keying: Keying, w: World, t: nat)
    requires PagesOK(keying, w) && t in w.tasks && w.tasks[t].Writing?
    ensures PagesOK(keying, StepTaskStore(keying, w, t))
  {
  }

  lemma PagesStep(keying: Keying, w: World, m: Move)
    requires PagesOK(keying, w)
    ensures PagesOK(keying, Step(keying, w, m))
  {
    match m {
      case Tick(d) => PagesTick(keying, w, d);
      case Arrive(r, route) => if r !in w.requests { PagesArrive(keying, w, r, route); }
      case Claim(r) => if Has(w, r) && CanClaim(w.requests[r]) { PagesClaim(keying, w, r); }
      case Spawn(r, t) => if Holds(w, r) && t !in w.tasks { PagesSpawn(keying, w, r, t); }
      case TaskRender(t, text) => if t in w.tasks && w.tasks[t].Working? { PagesTaskRender(keying, w, t, text); }
      case TaskStore(t) => if t in w.tasks && w.tasks[t].Writing? { PagesTaskStore(keying, w, t); }
      case TaskClear(_) =>
      case _ => if Has(w, m.r) { PagesRequest(keying, w, m.r, m); }
    }
  }

  lemma {:induction false} PagesPlay(keying: Keying, start: int, moves: seq<Move>)
    ensures PagesOK(keying, Play(keying, start, moves))
    decreases |moves|
  {
    if moves != [] {
      var n := |moves| - 1;
      PagesPlay(keying, start, moves[..n]);
      PagesStep(keying, Play(keying, start, moves[..n]), moves[n]);
    }
  }

  // ----- Which rendering a page comes from -----

  /** The move ends a rendering of the route that came out as text. */
  predicate Renders(w: World, m: Move, route: Route, text: string) {
    match m
    case Finish(r, out) => Has(w, r) && w.requests[r].Rendering? && w.routes[r] == route && out == Some(text)
    case TaskRender(t, out) => t in w.tasks && w.tasks[t].Working? && w.tasks[t].route == route && out == Some(text)
    case _ => false
  }

  /** The page is what the move made of the route, stamped by the clock, to live as long as the route says. */
  predicate Makes(w: World, m: Move, route: Route, page: Page) {
    Renders(w, m, route, page.text) && page == Page(route.path, page.text, w.now, Life(route.revalidate))
  }

  /** Where a page can be. */
  datatype Place = InStore(key: string) | WithRequest(r: nat) | WithTask(t: nat) | InAnswer(i: nat)

  function Held(q: Request): Option<Page> {
    match q
    case Found(e) => Some(e.page)
    case Deleting(e) => Some(e.page)
    case Fetched(e, _) => Some(e.page)
    case Usable(e, _) => Some(e.page)
    case Claiming(e, _) => Some(e.page)
    case Spawning(e, _) => Some(e.page)
    case Answering(e, _) => Some(e.page)
    case Storing(e) => Some(e.page)
    case _ => None
  }

  function At(w: World, place: Place): Option<Page> {
    match place
    case InStore(k) => if k in w.data then Some(w.data[k].page) else None
    case WithRequest(r) => if r in w.requests then Held(w.requests[r]) else None
    case WithTask(t) => if t in w.tasks && w.tasks[t].Writing? then Some(w.tasks[t].e.page) else None
    case InAnswer(i) => if i < |w.answers| then Some(w.answers[i].page) else None
  }

  ghost predicate Known(w: World, page: Page) { exists place :: At(w, place) == Some(page) }

  ghost predicate InData(data: map<string, Entry>, page: Page) { exists k :: k in data && data[k].page == page }

  /** A request gets its pages from the store, from what it holds, or from its own rendering. */
  lemma AdvanceOrigin(keying: Keying, m: Move, q: Request, route: Route, data: map<string, Entry>, now: int, page: Page)
    requires var f := Advance(keying, m, q, route, data, now);
      Held(f.q) == Some(page) || InData(f.data, page) || (f.answer.Some? && f.answer.value.page == page)
    ensures Held(q) == Some(page) || InData(data, page)
      || (m.Finish? && q.Rendering? && m.text == Some(page.text)
          && page == Page(route.path, page.text, now, Life(route.revalidate)))
  {
    var f := Advance(keying, m, q, route, data, now);
    if InData(f.data, page) {
      var k :| k in f.data && f.data[k].page == page;
      assert (k in data && data[k].page == page) || Held(q) == Some(page);
    }
  }

  lemma RequestOrigin(keying: Keying, w: World, r: nat, m: Move, place: Place, page: Page)
    requires Has(w, r) && OfRequest(m) && m.r == r && At(StepRequest(keying, w, r, m), place) == Some(page)
    ensures Known(w, page) || Makes(w, m, w.routes[r], page)
  {
    var f := Advance(keying, m, w.requests[r], w.routes[r], w.data, w.now);
    if At(w, place) != Some(page) {
      assert place.InStore? ==> InData(f.data, page);
      AdvanceOrigin(keying, m, w.requests[r], w.routes[r], w.data, w.now, page);
      if Held(w.requests[r]) == Some(page) {
        assert At(w, WithRequest(r)) == Some(page);
      } else if InData(w.data, page) {
        var k :| k in w.data && w.data[k].page == page;
        assert At(w, InStore(k)) == Some(page);
      }
    }
  }

  lemma ClaimOrigin(keying: Keying, w: World, r: nat, place: Place, page: Page)
    requires Has(w, r) && CanClaim(w.requests[r]) && At(StepClaim(keying, w, r), place) == Some(page)
    ensures At(w, place) == Some(page)
  {
  }

  lemma SpawnOrigin(keying: Keying, w: World, r: nat, t: nat, place: Place, page: Page)
    requires Holds(w, r) && t !in w.tasks && At(StepSpawn(keying, w, r, t), place) == Some(page)
    ensures At(w, place) == Some(page)
  {
  }

  lemma TaskOrigin(keying: Keying, w: World, m: Move, place: Place, page: Page)
    requires (m.TaskRender? || m.TaskStore? || m.TaskClear?) && At(Step(keying, w, m), place) == Some(page)
    ensures Known(w, page) || exists route :: Makes(w, m, route, page)
  {
    if At(w, place) != Some(page) {
      if m.TaskRender? {
        assert Makes(w, m, w.tasks[m.t].route, page);
      } else {
        assert At(w, WithTask(m.t)) == Some(page);
      }
    }
  }

  lemma OtherOrigin(keying: Keying, w: World, m: Move, place: Place, page: Page)
    requires (m.Tick? || m.Arrive? || m.Claim? || m.Spawn?) && At(Step(keying, w, m), place) == Some(page)
    ensures At(w, place) == Some(page)
  {
    match m {
      case Claim(r) => if Has(w, r) && CanClaim(w.requests[r]) { ClaimOrigin(keying, w, r, place, page); }
      case Spawn(r, t) => if Holds(w, r) && t !in w.tasks { SpawnOrigin(keying, w, r, t, place, page); }
      case _ =>
    }
  }

  /** A page anywhere in the world was there before the move, or the move made it. */
  lemma Origin(keying: Keying, w: World, m: Move, place: Place, page: Page)
    requires At(Step(keying, w, m), place) == Some(page)
    ensures Known(w, page) || exists route :: Makes(w, m, route, page)
  {
    if OfRequest(m) {
      if Has(w, m.r) {
        RequestOrigin(keying, w, m.r, m, place, page);
      } else {
        assert At(w, place) == Some(page);
      }
    } else if m.TaskRender? || m.TaskStore? || m.TaskClear? {
      TaskOrigin(keying, w, m, place, page);
    } else {
      OtherOrigin(keying, w, m, place, page);
    }
  }

  /** The n-th move of the run made the page for the route. */
  ghost predicate MadeAt(keying: Keying, start: int, moves: seq<Move>, n: nat, route: Route, page: Page) {
    n < |moves| && Makes(Play(keying, start, moves[..n]), moves[n], route, page)
  }

  lemma {:induction false} EveryPageWasMade(keying: Keying, start: int, moves: seq<Move>, place: Place, page: Page)
    returns (n: nat, route: Route)
    requires At(Play(keying, start, moves), place) == Some(page)
    ensures MadeAt(keying, start, moves, n, route, page)
    decreases |moves|
  {
    assert moves != [];
    var last := |moves| - 1;
    var before := moves[..last];
    var w := Play(keying, start, before);
    Origin(keying, w, moves[last], place, page);
    if Known(w, page) {
      var earlier :| At(w, earlier) == Some(page);
      n, route := EveryPageWasMade(keying, start, before, earlier, page);
      assert moves[..n] == before[..n];
    } else {
      n := last;
      route :| Makes(w, moves[last], route, page);
    }
  }

  /** An answer is given by one move, of a request for its path, and judged by the clock of that moment. */
  ghost predicate GivenAt(keying: Keying, start: int, moves: seq<Move>, i: nat, n: nat) {
    && n < |moves| && i < |Play(keying, start, moves).answers|
    && var w, a := Play(keying, start, moves[..n]), Play(keying, start, moves).answers[i];
    && OfRequest(moves[n]) && Has(w, moves[n].r) && w.routes[moves[n].r].path == a.path
    && a.judged == w.now && w.answers + [a] == Play(keying, start, moves[..n + 1]).answers && |w.answers| == i
  }

  lemma AnswersGrow(keying: Keying, w: World, m: Move)
    ensures var w' := Step(keying, w, m);
      w'.answers == w.answers
      || (OfRequest(m) && Has(w, m.r) && |w'.answers| == |w.answers| + 1
          && var a := w'.answers[|w.answers|];
             w'.answers == w.answers + [a] && a.judged == w.now && a.path == w.routes[m.r].path)
  {
  }

  lemma {:induction false} EveryAnswerWasGiven(keying: Keying, start: int, moves: seq<Move>, i: nat) returns (n: nat)
    requires i < |Play(keying, start, moves).answers|
    ensures GivenAt(keying, start, moves, i, n)
    decreases |moves|
  {
    assert moves != [];
    var last := |moves| - 1;
    var before := moves[..last];
    var w := Play(keying, start, before);
    AnswersGrow(keying, w, moves[last]);
    if i < |w.answers| {
      n := EveryAnswerWasGiven(keying, start, before, i);
      assert moves[..n] == before[..n] && moves[..n + 1] == before[..n + 1];
    } else {
      n := last;
      assert moves[..n + 1] == moves;
    }
  }

  /** What an answer promises about the rendering its body came out of. */
  ghost predicate AgeOK(keying: Keying, a: Answer, route: Route, made: int) {
    && keying(route.path) == keying(a.path)
    && made <= a.fetched <= a.judged
    && var life := if route.revalidate > 0 then route.revalidate else DEFAULT_LIFE;
    && (a.status == Hit ==> a.judged <= made + life)
    && (a.status == ServeStale ==> made + life < a.judged && a.fetched <= made + 2 * life)
    && (a.status == Miss ==> route.path == a.path && a.fetched == a.judged)
  }

  lemma AgeFollows(keying: Keying, a: Answer, w: World, m: Move, route: Route)
    requires AnswerOK(keying, a) && Makes(w, m, route, a.page)
    ensures AgeOK(keying, a, route, w.now)
  {
  }

  lemma AnswerIsOK(keying: Keying, start: int, moves: seq<Move>, i: nat)
    requires i < |Play(keying, start, moves).answers|
    ensures AnswerOK(keying, Play(keying, start, moves).answers[i])
  {
    PagesPlay(keying, start, moves);
  }

  /** Main result: every body ever served came out of a rendering in this run, for a path with the same key. A hit is
      judged, by the clock when it is given, within the lifetime of the rendered route since the rendering ended; a
      stale body was fetched within twice that. */
  lemma ServedPagesAreGenuine(keying: Keying, start: int, moves: seq<Move>, i: nat)
    requires i < |Play(keying, start, moves).answers|
    ensures var a := Play(keying, start, moves).answers[i];
      exists n: nat, route :: MadeAt(keying, start, moves, n, route, a.page)
        && AgeOK(keying, a, route, Play(keying, start, moves[..n]).now)
    ensures exists n :: GivenAt(keying, start, moves, i, n)
  {
    AnswerIsOK(keying, start, moves, i);
    var a := Play(keying, start, moves).answers[i];
    var n, route := EveryPageWasMade(keying, start, moves, InAnswer(i), a.page);
    AgeFollows(keying, a, Play(keying, start, moves[..n]), moves[n], route);
    var given := EveryAnswerWasGiven(keying, start, moves, i);
  }

  /** With the router's key: the body was rendered for the same path up to surrounding white space, an empty
      path counting as the root. The query plays no part. */
  lemma ServedPathMatches(locale: string, start: int, moves: seq<Move>, i: nat)
    requires i < |Play(RouterKey(locale), start, moves).answers|
    ensures var a := Play(RouterKey(locale), start, moves).answers[i];
      && NormPath(a.page.path) == NormPath(a.path)
      && (exists core :: Means(a.page.path, core, "/") && Means(a.path, core, "/"))
      && (Clean(a.page.path) && Clean(a.path) ==> a.page.path == a.path)
  {
    AnswerIsOK(RouterKey(locale), start, moves, i);
    var a := Play(RouterKey(locale), start, moves).answers[i];
    SamePageIff("GET", a.page.path, a.path, locale);
    SamePathIff("GET", a.page.path, a.path, locale);
  }

  /** What an entry under a key promises about the rendering it came out of. */
  ghost predicate EntryOK(keying: Keying, e: Entry, key: string, route: Route, made: int) {
    && KeyOf(keying, route) == key
    && var life := if route.revalidate > 0 then route.revalidate else DEFAULT_LIFE;
       e == Entry(Page(route.path, e.page.text, made, life), Some(made + life), Some(made + 2 * life))
  }

  lemma EntryFollows(keying: Keying, e: Entry, key: string, now: int, w: World, m: Move, route: Route)
    requires Genuine(keying, e, key, now) && Makes(w, m, route, e.page)
    ensures EntryOK(keying, e, key, route, w.now)
  {
  }

  /** The store never lies: whatever it holds under a key was rendered in this run for a route with that key, goes stale
      a lifetime of the route after the rendering ended and expires after two. */
  lemma StoreIsGenuine(keying: Keying, start: int, moves: seq<Move>, key: string)
    requires key in Play(keying, start, moves).data
    ensures var w := Play(keying, start, moves); Genuine(keying, w.data[key], key, w.now)
    ensures var e := Play(keying, start, moves).data[key];
      exists n: nat, route :: MadeAt(keying, start, moves, n, route, e.page)
        && EntryOK(keying, e, key, route, Play(keying, start, moves[..n]).now)
  {
    PagesPlay(keying, start, moves);
    var w := Play(keying, start, moves);
    var n, route := EveryPageWasMade(keying, start, moves, InStore(key), w.data[key].page);
    EntryFollows(keying, w.data[key], key, w.now, Play(keying, start, moves[..n]), moves[n], route);
  }

  /** An entry that expires between the store's check and the handler's: its body is still served, and a background
      rendering asked for, unless there is none, when the request renders. */
  lemma ExpiredInHand(keying: Keying, w: World, r: nat, e: Entry, at: int)
    requires Has(w, r) && w.requests[r] == Fetched(e, at) && e.expiresAt.Some? && w.now > e.expiresAt.value
    ensures var w' := Step(keying, w, CheckAgain(r));
      && w'.data == w.data
      && if e.page.text == "" then w'.requests[r] == Rendering && w'.answers == w.answers
         else w'.requests[r] == ClaimingAfter
              && w'.answers == w.answers + [Answer(w.routes[r].path, ServeStale, e.page, at, w.now)]
  {
  }

  // ----- The store may forget -----

  /** Which steps can take an entry out of the store. */
  predicate Deletes(keying: Keying, w: World, m: Move, key: string) {
    m.DeleteExpired? && Has(w, m.r) && w.requests[m.r].Deleting? && KeyOf(keying, w.routes[m.r]) == key
  }

  lemma AdvanceKeepsEntries(keying: Keying, m: Move, q: Request, route: Route, data: map<string, Entry>, now: int, key: string)
    requires OfRequest(m) && key in data
    ensures key !in Advance(keying, m, q, route, data, now).data <==> m.DeleteExpired? && q.Deleting? && KeyOf(keying, route) == key
  {
  }

  lemma LosesIff(keying: Keying, w: World, m: Move, key: string)
    requires w.routes.Keys == w.requests.Keys && key in w.data
    ensures key !in Step(keying, w, m).data <==> Deletes(keying, w, m, key)
  {
    if OfRequest(m) && Has(w, m.r) {
      AdvanceKeepsEntries(keying, m, w.requests[m.r], w.routes[m.r], w.data, w.now, key);
    }
  }

  /** A page that has not expired leaves the store exactly when a request that had seen an older, expired
      page of the same key gets to its delete: the store may forget a page however fresh it is. */
  lemma ForgetsIff(keying: Keying, start: int, moves: seq<Move>, m: Move, key: string)
    requires var w := Play(keying, start, moves); key in w.data && !Expired(w.data[key], w.now)
    ensures var w := Play(keying, start, moves); key !in Step(keying, w, m).data <==> Deletes(keying, w, m, key)
    ensures var w := Play(keying, start, moves);
      Deletes(keying, w, m, key) ==>
        var seen := w.requests[m.r].seen;
        Genuine(keying, seen, key, w.now) && Expired(seen, w.now) && seen != w.data[key]
  {
    PagesPlay(keying, start, moves);
    var w := Play(keying, start, moves);
    LosesIff(keying, w, m, key);
    if Deletes(keying, w, m, key) {
      assert RequestOK(keying, w.requests[m.r], w.routes[m.r], w.now);
    }
  }
}
