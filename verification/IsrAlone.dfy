/** The one-instant form of serveISR is what the interleaved protocol does when nobody else moves and the clock
    stands still. */
module IsrAlone {
  import opened Common
  import opened IsrStore
  import opened Isr

  /** The steps up to the store's answer. */
  function Fetch(keying: Keying, w: World, r: nat, route: Route): World {
    var w1 := Step(keying, w, Arrive(r, route));
    var w2 := Step(keying, w1, Look(r));
    var w3 := Step(keying, w2, CheckExpired(r));
    Step(keying, w3, DeleteExpired(r))
  }

  /** The steps on an entry the store answered with. */
  function Reuse(keying: Keying, w: World, r: nat, t: nat): World {
    var w1 := Step(keying, w, CheckAgain(r));
    var w2 := Step(keying, w1, CheckStale(r));
    var w3 := Step(keying, w2, Move.Claim(r));
    var w4 := Step(keying, w3, Spawn(r, t));
    Step(keying, w4, Write(r))
  }

  /** The steps of rendering in the foreground. */
  function Render(keying: Keying, w: World, r: nat, rendered: Option<string>): World {
    Step(keying, Step(keying, w, Finish(r, rendered)), Store(r))
  }

  /** A request alone; moves that do not apply change nothing. */
  function Alone(keying: Keying, w: World, r: nat, t: nat, route: Route, rendered: Option<string>): World {
    Render(keying, Reuse(keying, Fetch(keying, w, r, route), r, t), r, rendered)
  }

  predicate Newcomer(w: World, r: nat, t: nat) { r !in w.requests && r !in w.routes && t !in w.tasks }

  /** The world after w in which request r of this route is at q. */
  function With(w: World, r: nat, route: Route, q: Request, data: map<string, Entry>): World {
    w.(requests := w.requests[r := q], routes := w.routes[r := route], data := data)
  }

  /** What an ordinary step of r does to the world. */
  function Moved(w: World, r: nat, route: Route, f: Effect): World {
    With(w, r, route, f.q, f.data)
      .(answers := if f.answer.None? then w.answers else w.answers + [f.answer.value])
  }

  lemma OneStep(keying: Keying, w: World, r: nat, route: Route, q: Request, data: map<string, Entry>, m: Move)
    requires r !in w.routes && OfRequest(m) && m.r == r
    ensures Step(keying, With(w, r, route, q, data), m) == Moved(w, r, route, Advance(keying, m, q, route, data, w.now))
  {
    var v, f := With(w, r, route, q, data), Advance(keying, m, q, route, data, w.now);
    assert Has(v, r) && v.requests[r] == q && v.routes[r] == route;
    assert Step(keying, v, m) == StepRequest(keying, v, r, m);
    assert v.requests[r := f.q] == w.requests[r := f.q];
  }

  lemma FetchMissing(keying: Keying, w: World, r: nat, t: nat, route: Route)
    requires Newcomer(w, r, t) && KeyOf(keying, route) !in w.data
    ensures Fetch(keying, w, r, route) == With(w, r, route, Rendering, w.data)
  {
  }

  lemma FetchFound(keying: Keying, w: World, r: nat, t: nat, route: Route)
    requires Newcomer(w, r, t) && KeyOf(keying, route) in w.data
    ensures var e := w.data[KeyOf(keying, route)];
      Fetch(keying, w, r, route)
      == if Expired(e, w.now) then With(w, r, route, Rendering, w.data - {KeyOf(keying, route)})
         else With(w, r, route, Fetched(e, w.now), w.data)
  {
    var e := w.data[KeyOf(keying, route)];
    assert Step(keying, w, Arrive(r, route)) == With(w, r, route, Arrived, w.data);
    OneStep(keying, w, r, route, Arrived, w.data, Look(r));
    OneStep(keying, w, r, route, Found(e), w.data, CheckExpired(r));
    OneStep(keying, w, r, route, if Expired(e, w.now) then Deleting(e) else Fetched(e, w.now), w.data, DeleteExpired(r));
  }

  /** A request that is rendering or done has no use for the steps in between. */
  lemma Idle(keying: Keying, w: World, r: nat, m: Move)
    requires Has(w, r) && (w.requests[r] == Rendering || w.requests[r] == Done)
    requires (m.CheckAgain? || m.CheckStale? || m.Write?) && m.r == r
    ensures Step(keying, w, m) == w
  {
  }

  lemma NoClaim(keying: Keying, w: World, r: nat, t: nat)
    requires Has(w, r) && (w.requests[r] == Rendering || w.requests[r] == Done)
    ensures Step(keying, w, Move.Claim(r)) == w && Step(keying, w, Spawn(r, t)) == w
  {
  }

  lemma ReuseNothing(keying: Keying, w: World, r: nat, t: nat)
    requires Has(w, r) && w.requests[r] == Rendering
    ensures Reuse(keying, w, r, t) == w
  {
    Idle(keying, w, r, CheckAgain(r));
    Idle(keying, w, r, CheckStale(r));
    Idle(keying, w, r, Write(r));
    NoClaim(keying, w, r, t);
  }

  function Answered(w: World, route: Route, status: Verdict, page: Page): World {
    w.(answers := w.answers + [Answer(route.path, status, page, w.now, w.now)])
  }

  lemma ReuseHit(keying: Keying, w: World, r: nat, t: nat, route: Route, e: Entry)
    requires Newcomer(w, r, t) && !Expired(e, w.now) && !Stale(e, w.now)
    ensures Reuse(keying, With(w, r, route, Fetched(e, w.now), w.data), r, t)
         == Answered(With(w, r, route, Done, w.data), route, Hit, e.page)
  {
    OneStep(keying, w, r, route, Fetched(e, w.now), w.data, CheckAgain(r));
    OneStep(keying, w, r, route, Usable(e, w.now), w.data, CheckStale(r));
    var v := Answered(With(w, r, route, Done, w.data), route, Hit, e.page);
    NoClaim(keying, v, r, t);
    Idle(keying, v, r, Write(r));
  }

  /** The world with a background task for the route's key, unless it had one. */
  function Started(keying: Keying, w: World, t: nat, route: Route): World {
    var key := KeyOf(keying, route);
    if key in w.inflight then w
    else w.(inflight := w.inflight[key := ByTask(t)], tasks := w.tasks[t := Working(route)])
  }

  lemma ReuseStale(keying: Keying, w: World, r: nat, t: nat, route: Route, e: Entry)
    requires Newcomer(w, r, t) && !Expired(e, w.now) && Stale(e, w.now)
    ensures Reuse(keying, With(w, r, route, Fetched(e, w.now), w.data), r, t)
         == Answered(Started(keying, With(w, r, route, Done, w.data), t, route), route, ServeStale, e.page)
  {
    ToClaiming(keying, w, r, route, e);
    if KeyOf(keying, route) in w.inflight {
      ClaimRefused(keying, w, r, t, route, e);
    } else {
      ClaimGranted(keying, w, r, t, route, e);
    }
    OneStep(keying, Started(keying, w, t, route), r, route, Answering(e, w.now), w.data, Write(r));
  }

  lemma ToClaiming(keying: Keying, w: World, r: nat, route: Route, e: Entry)
    requires r !in w.routes && !Expired(e, w.now) && Stale(e, w.now)
    ensures Step(keying, Step(keying, With(w, r, route, Fetched(e, w.now), w.data), CheckAgain(r)), CheckStale(r))
         == With(w, r, route, Claiming(e, w.now), w.data)
  {
    OneStep(keying, w, r, route, Fetched(e, w.now), w.data, CheckAgain(r));
    OneStep(keying, w, r, route, Usable(e, w.now), w.data, CheckStale(r));
  }

  lemma ClaimRefused(keying: Keying, w: World, r: nat, t: nat, route: Route, e: Entry)
    requires Newcomer(w, r, t) && KeyOf(keying, route) in w.inflight
    ensures Step(keying, Step(keying, With(w, r, route, Claiming(e, w.now), w.data), Move.Claim(r)), Spawn(r, t))
         == With(w, r, route, Answering(e, w.now), w.data)
  {
  }

  /** The world in which r has claimed its key and not yet started the task. */
  function JustClaimed(keying: Keying, w: World, r: nat, route: Route, e: Entry): World {
    With(w, r, route, Spawning(e, w.now), w.data).(inflight := w.inflight[KeyOf(keying, route) := ByRequest(r)])
  }

  lemma Claims(keying: Keying, w: World, r: nat, t: nat, route: Route, e: Entry)
    requires Newcomer(w, r, t) && KeyOf(keying, route) !in w.inflight
    ensures Step(keying, With(w, r, route, Claiming(e, w.now), w.data), Move.Claim(r)) == JustClaimed(keying, w, r, route, e)
  {
    assert w.requests[r := Claiming(e, w.now)][r := Spawning(e, w.now)] == w.requests[r := Spawning(e, w.now)];
  }

  lemma Spawns(keying: Keying, w: World, r: nat, t: nat, route: Route, e: Entry)
    requires Newcomer(w, r, t) && KeyOf(keying, route) !in w.inflight
    ensures Step(keying, JustClaimed(keying, w, r, route, e), Spawn(r, t))
         == Started(keying, With(w, r, route, Answering(e, w.now), w.data), t, route)
  {
    var key := KeyOf(keying, route);
    assert w.inflight[key := ByRequest(r)][key := ByTask(t)] == w.inflight[key := ByTask(t)];
    assert w.requests[r := Spawning(e, w.now)][r := Answering(e, w.now)] == w.requests[r := Answering(e, w.now)];
  }

  lemma ClaimGranted(keying: Keying, w: World, r: nat, t: nat, route: Route, e: Entry)
    requires Newcomer(w, r, t) && KeyOf(keying, route) !in w.inflight
    ensures Step(keying, Step(keying, With(w, r, route, Claiming(e, w.now), w.data), Move.Claim(r)), Spawn(r, t))
         == Started(keying, With(w, r, route, Answering(e, w.now), w.data), t, route)
  {
    Claims(keying, w, r, t, route, e);
    Spawns(keying, w, r, t, route, e);
  }

  lemma RenderNothing(keying: Keying, w: World, r: nat, rendered: Option<string>)
    requires Has(w, r) && w.requests[r] == Done
    ensures Render(keying, w, r, rendered) == w
  {
  }

  lemma RenderFails(keying: Keying, w: World, r: nat, route: Route, data: map<string, Entry>)
    requires r !in w.routes
    ensures Render(keying, With(w, r, route, Rendering, data), r, None) == With(w, r, route, Done, data)
  {
  }

  lemma Stores(keying: Keying, w: World, r: nat, route: Route, data: map<string, Entry>, e: Entry)
    requires r !in w.routes
    ensures Step(keying, With(w, r, route, Storing(e), data), Store(r))
         == Answered(With(w, r, route, Done, data[KeyOf(keying, route) := e]), route, Miss, e.page)
  {
    OneStep(keying, w, r, route, Storing(e), data, Store(r));
  }

  lemma RenderMakes(keying: Keying, w: World, r: nat, route: Route, data: map<string, Entry>, text: string)
    requires r !in w.routes
    ensures var e := IsrEntry(route.path, text, route.revalidate, w.now);
      Render(keying, With(w, r, route, Rendering, data), r, Some(text))
      == Answered(With(w, r, route, Done, data[KeyOf(keying, route) := e]), route, Miss, e.page)
  {
    var e := IsrEntry(route.path, text, route.revalidate, w.now);
    OneStep(keying, w, r, route, Rendering, data, Finish(r, Some(text)));
    Stores(keying, w, r, route, data, e);
  }

  /** What Serve's outcome amounts to in the world. */
  ghost predicate Amounts(keying: Keying, w: World, w': World, r: nat, route: Route,
                          outcome: (Reply, map<string, Entry>, bool)) {
    var (reply, data, background) := outcome;
    && w'.now == w.now && w'.data == data && r in w'.requests && w'.requests[r] == Done
    && w'.inflight.Keys == w.inflight.Keys + (if background then {KeyOf(keying, route)} else {})
    && match reply
       case Failed => w'.answers == w.answers
       case Reply(status, text) =>
         && |w'.answers| == |w.answers| + 1 && w'.answers[..|w.answers|] == w.answers
         && var a := w'.answers[|w.answers|]; a.path == route.path && a.status == status && a.page.text == text
  }

  lemma ReuseAlone(keying: Keying, w: World, r: nat, t: nat, route: Route, e: Entry, rendered: Option<string>)
    requires Newcomer(w, r, t) && !Expired(e, w.now)
    ensures var w' := Render(keying, Reuse(keying, With(w, r, route, Fetched(e, w.now), w.data), r, t), r, rendered);
      Amounts(keying, w, w', r, route,
        (IsrStore.Reply(Judge(e, w.now), e.page.text), w.data, Stale(e, w.now) && KeyOf(keying, route) !in w.inflight.Keys))
  {
    if Stale(e, w.now) {
      ReuseStale(keying, w, r, t, route, e);
    } else {
      ReuseHit(keying, w, r, t, route, e);
    }
    RenderNothing(keying, Reuse(keying, With(w, r, route, Fetched(e, w.now), w.data), r, t), r, rendered);
  }

  lemma RenderedAlone(keying: Keying, w: World, r: nat, route: Route, data: map<string, Entry>, rendered: Option<string>)
    requires r !in w.routes
    ensures Amounts(keying, w, Render(keying, With(w, r, route, Rendering, data), r, rendered), r, route,
      match rendered
      case None => (Failed, data, false)
      case Some(text) =>
        (IsrStore.Reply(Miss, text), data[KeyOf(keying, route) := IsrEntry(route.path, text, route.revalidate, w.now)], false))
  {
    match rendered
    case None => RenderFails(keying, w, r, route, data);
    case Some(text) => RenderMakes(keying, w, r, route, data, text);
  }

  /** Main result: at any moment of any run, a request served without interruption has exactly the outcome the
      one-instant form gives: reply, store and single-flight marks. */
  lemma AloneIsServe(keying: Keying, w: World, r: nat, t: nat, route: Route, rendered: Option<string>)
    requires Newcomer(w, r, t)
    ensures Amounts(keying, w, Alone(keying, w, r, t, route, rendered), r, route,
      Serve(w.data, w.inflight.Keys, KeyOf(keying, route), route.path, route.revalidate, rendered, w.now))
  {
    var key := KeyOf(keying, route);
    if key in w.data && !Expired(w.data[key], w.now) {
      FetchFound(keying, w, r, t, route);
      ReuseAlone(keying, w, r, t, route, w.data[key], rendered);
    } else {
      if key in w.data {
        FetchFound(keying, w, r, t, route);
      } else {
        FetchMissing(keying, w, r, t, route);
        assert w.data - {key} == w.data;
      }
      ReuseNothing(keying, With(w, r, route, Rendering, w.data - {key}), r, t);
      RenderedAlone(keying, w, r, route, w.data - {key}, rendered);
    }
  }
}
