/** Runs of incremental static regeneration in which the store loses a page that has only just been rendered. */
module IsrForgets {
  import opened Common
  import opened IsrStore
  import opened Isr

  /** Request r of the route is at q. */
  predicate On(w: World, r: nat, route: Route, q: Request) { Has(w, r) && w.routes[r] == route && w.requests[r] == q }

  /** From w to w' request r of the route has got to q and made the store what data is; the other requests are where
      they were. */
  ghost predicate Leads(w: World, w': World, r: nat, route: Route, q: Request, data: map<string, Entry>) {
    && On(w', r, route, q) && w'.data == data && w'.now == w.now
    && w'.requests.Keys == w.requests.Keys + {r} && w'.routes.Keys == w.routes.Keys + {r}
    && forall o :: o != r && Has(w, o) ==> w'.requests[o] == w.requests[o] && w'.routes[o] == w.routes[o]
  }

  function Run(keying: Keying, w: World, moves: seq<Move>): World
    decreases |moves|
  {
    if moves == [] then w else Step(keying, Run(keying, w, moves[..|moves| - 1]), moves[|moves| - 1])
  }

  lemma {:induction false} PlayRun(keying: Keying, start: int, moves: seq<Move>, more: seq<Move>)
    ensures Play(keying, start, moves + more) == Run(keying, Play(keying, start, moves), more)
    decreases |more|
  {
    if more == [] {
      assert moves + more == moves;
    } else {
      assert (moves + more)[..|moves + more| - 1] == moves + more[..|more| - 1];
      PlayRun(keying, start, moves, more[..|more| - 1]);
    }
  }

  lemma {:induction false} RunJoins(keying: Keying, w: World, a: seq<Move>, b: seq<Move>)
    ensures Run(keying, w, a + b) == Run(keying, Run(keying, w, a), b)
    decreases |b|
  {
    if b == [] {
      assert a + b == a;
    } else {
      assert (a + b)[..|a + b| - 1] == a + b[..|b| - 1];
      RunJoins(keying, w, a, b[..|b| - 1]);
    }
  }

  lemma Arrives(keying: Keying, w: World, r: nat, route: Route)
    requires r !in w.requests && r !in w.routes
    ensures Leads(w, Run(keying, w, [Arrive(r, route)]), r, route, Arrived, w.data)
  {
    assert [Arrive(r, route)][..0] == [];
    assert Run(keying, w, [Arrive(r, route)]) == StepArrive(w, r, route);
  }

  lemma Next(keying: Keying, w: World, route: Route, q: Request, m: Move)
    requires OfRequest(m) && On(w, m.r, route, q)
    ensures var f := Advance(keying, m, q, route, w.data, w.now);
      Leads(w, Step(keying, w, m), m.r, route, f.q, f.data)
  {
  }

  lemma LeadsOn(w: World, w1: World, w2: World, r: nat, route: Route, q1: Request, q2: Request,
                data1: map<string, Entry>, data2: map<string, Entry>)
    requires Leads(w, w1, r, route, q1, data1) && Leads(w1, w2, r, route, q2, data2)
    ensures Leads(w, w2, r, route, q2, data2)
  {
  }

  /** Where a request at q gets by these moves of its own, and what it makes of the store. */
  function Progress(keying: Keying, moves: seq<Move>, q: Request, route: Route, data: map<string, Entry>, now: int)
    : Effect
    decreases |moves|
  {
    if moves == [] then Effect(q, data, None) else
    var f := Progress(keying, moves[..|moves| - 1], q, route, data, now);
    Advance(keying, moves[|moves| - 1], f.q, route, f.data, now)
  }

  lemma {:induction false} Proceeds(keying: Keying, w: World, r: nat, route: Route, q: Request, moves: seq<Move>)
    requires On(w, r, route, q) && forall i :: 0 <= i < |moves| ==> OfRequest(moves[i]) && moves[i].r == r
    ensures var f := Progress(keying, moves, q, route, w.data, w.now);
      Leads(w, Run(keying, w, moves), r, route, f.q, f.data)
    decreases |moves|
  {
    if moves != [] {
      var n := |moves| - 1;
      Proceeds(keying, w, r, route, q, moves[..n]);
      var w1, f := Run(keying, w, moves[..n]), Progress(keying, moves[..n], q, route, w.data, w.now);
      Next(keying, w1, route, f.q, moves[n]);
      var g := Progress(keying, moves, q, route, w.data, w.now);
      LeadsOn(w, w1, Run(keying, w, moves), r, route, f.q, g.q, f.data, g.data);
    }
  }

  function Checks(r: nat): seq<Move> { [Look(r), CheckExpired(r)] }

  function Sees(r: nat, route: Route): seq<Move> { [Arrive(r, route)] + Checks(r) }

  function Renews(r: nat, text: string): seq<Move> { [DeleteExpired(r), Finish(r, Some(text)), Store(r)] }

  lemma ProgressTwo(keying: Keying, a: Move, b: Move, q: Request, route: Route, data: map<string, Entry>, now: int)
    ensures var f := Advance(keying, a, q, route, data, now);
      Progress(keying, [a, b], q, route, data, now) == Advance(keying, b, f.q, route, f.data, now)
  {
    assert [a, b][..1] == [a] && [a][..0] == [];
    assert Progress(keying, [a], q, route, data, now) == Advance(keying, a, q, route, data, now);
  }

  lemma ChecksProgress(keying: Keying, r: nat, route: Route, data: map<string, Entry>, now: int)
    requires KeyOf(keying, route) in data && Expired(data[KeyOf(keying, route)], now)
    ensures Progress(keying, Checks(r), Arrived, route, data, now)
         == Effect(Deleting(data[KeyOf(keying, route)]), data, None)
  {
    ProgressTwo(keying, Look(r), CheckExpired(r), Arrived, route, data, now);
  }

  /** A request that comes while the entry is expired gets ready to delete it. */
  lemma Meets(keying: Keying, w: World, r: nat, route: Route)
    requires r !in w.requests && r !in w.routes
    requires KeyOf(keying, route) in w.data && Expired(w.data[KeyOf(keying, route)], w.now)
    ensures Leads(w, Run(keying, w, Sees(r, route)), r, route, Deleting(w.data[KeyOf(keying, route)]), w.data)
  {
    var e := w.data[KeyOf(keying, route)];
    Arrives(keying, w, r, route);
    var w1 := Run(keying, w, [Arrive(r, route)]);
    ChecksProgress(keying, r, route, w1.data, w1.now);
    Proceeds(keying, w1, r, route, Arrived, Checks(r));
    RunJoins(keying, w, [Arrive(r, route)], Checks(r));
    LeadsOn(w, w1, Run(keying, w, Sees(r, route)), r, route, Arrived, Deleting(e), w.data, w.data);
  }

  lemma RenewsProgress(keying: Keying, r: nat, route: Route, e: Entry, data: map<string, Entry>, now: int, text: string)
    ensures Progress(keying, Renews(r, text), Deleting(e), route, data, now).q == Done
    ensures Progress(keying, Renews(r, text), Deleting(e), route, data, now).data
         == data[KeyOf(keying, route) := IsrEntry(route.path, text, route.revalidate, now)]
  {
    var key := KeyOf(keying, route);
    assert Renews(r, text)[..2] == [DeleteExpired(r), Finish(r, Some(text))];
    ProgressTwo(keying, DeleteExpired(r), Finish(r, Some(text)), Deleting(e), route, data, now);
    var made := IsrEntry(route.path, text, route.revalidate, now);
    assert (data - {key})[key := made] == data[key := made];
  }

  /** It deletes it, renders and stores a new page. */
  lemma Replaces(keying: Keying, w: World, r: nat, route: Route, e: Entry, text: string)
    requires On(w, r, route, Deleting(e))
    ensures Leads(w, Run(keying, w, Renews(r, text)), r, route, Done,
                  w.data[KeyOf(keying, route) := IsrEntry(route.path, text, route.revalidate, w.now)])
  {
    Proceeds(keying, w, r, route, Deleting(e), Renews(r, text));
    RenewsProgress(keying, r, route, e, w.data, w.now, text);
  }

  /** Of two requests that saw the expired page, one has replaced it: the other will delete what is there now. */
  lemma LateDelete(keying: Keying, w: World, w1: World, w2: World, w3: World, r: nat, late: nat, route: Route,
                   e: Entry, made: Entry)
    requires r != late && !Has(w, late) && w.routes.Keys == w.requests.Keys
    requires Leads(w, w1, r, route, Deleting(e), w.data) && Leads(w1, w2, late, route, Deleting(e), w1.data)
    requires Leads(w2, w3, r, route, Done, w2.data[KeyOf(keying, route) := made])
    ensures On(w2, r, route, Deleting(e)) && Deletes(keying, w3, DeleteExpired(late), KeyOf(keying, route))
    ensures KeyOf(keying, route) in w3.data && w3.data[KeyOf(keying, route)] == made && w3.now == w.now
    ensures w3.routes.Keys == w3.requests.Keys
  {
  }

  function Overlap(r: nat, late: nat, route: Route, text: string): seq<Move> {
    Sees(r, route) + Sees(late, route) + Renews(r, text)
  }

  lemma LostFrom(keying: Keying, w: World, r: nat, late: nat, route: Route, text: string)
    requires w.routes.Keys == w.requests.Keys && r != late && r !in w.requests && late !in w.requests
    requires KeyOf(keying, route) in w.data && Expired(w.data[KeyOf(keying, route)], w.now)
    ensures var w3, key := Run(keying, w, Overlap(r, late, route, text)), KeyOf(keying, route);
      && key in w3.data && w3.data[key] == IsrEntry(route.path, text, route.revalidate, w3.now)
      && Deletes(keying, w3, DeleteExpired(late), key) && w3.routes.Keys == w3.requests.Keys
  {
    var e, made := w.data[KeyOf(keying, route)], IsrEntry(route.path, text, route.revalidate, w.now);
    Meets(keying, w, r, route);
    var w1 := Run(keying, w, Sees(r, route));
    Meets(keying, w1, late, route);
    var w2 := Run(keying, w1, Sees(late, route));
    Replaces(keying, w2, r, route, e, text);
    RunJoins(keying, w, Sees(r, route), Sees(late, route));
    RunJoins(keying, w, Sees(r, route) + Sees(late, route), Renews(r, text));
    LateDelete(keying, w, w1, w2, Run(keying, w2, Renews(r, text)), r, late, route, e, made);
  }

  /** Whenever the store holds an expired page, two requests can lose the page rendered next: both see the old one, one
      of them replaces it, and the other deletes what it finds under the key. */
  lemma FreshPageIsLost(keying: Keying, start: int, moves: seq<Move>, route: Route, text: string)
    returns (more: seq<Move>, late: nat)
    requires var w := Play(keying, start, moves);
      KeyOf(keying, route) in w.data && Expired(w.data[KeyOf(keying, route)], w.now)
    ensures var w, key := Play(keying, start, moves + more), KeyOf(keying, route);
      && key in w.data && w.data[key] == IsrEntry(route.path, text, route.revalidate, w.now)
      && Deletes(keying, w, DeleteExpired(late), key) && key !in Step(keying, w, DeleteExpired(late)).data
  {
    var w := Play(keying, start, moves);
    var r := FreshId(w.requests.Keys);
    assert r !in w.requests.Keys && r + 1 !in w.requests.Keys;
    late := r + 1;
    PagesPlay(keying, start, moves);
    more := Overlap(r, late, route, text);
    LostFrom(keying, w, r, late, route, text);
    PlayRun(keying, start, moves, more);
    LosesIff(keying, Play(keying, start, moves + more), DeleteExpired(late), KeyOf(keying, route));
  }

  function Visit(r: nat, text: string): seq<Move> { [Look(r), Finish(r, Some(text)), Store(r)] }

  lemma VisitProgress(keying: Keying, r: nat, route: Route, data: map<string, Entry>, now: int, text: string)
    requires KeyOf(keying, route) !in data
    ensures Progress(keying, Visit(r, text), Arrived, route, data, now).q == Done
    ensures Progress(keying, Visit(r, text), Arrived, route, data, now).data
         == data[KeyOf(keying, route) := IsrEntry(route.path, text, route.revalidate, now)]
  {
    assert Visit(r, text)[..2] == [Look(r), Finish(r, Some(text))];
    ProgressTwo(keying, Look(r), Finish(r, Some(text)), Arrived, route, data, now);
  }

  lemma Visits(keying: Keying, w: World, r: nat, route: Route, text: string)
    requires r !in w.requests && r !in w.routes && KeyOf(keying, route) !in w.data
    ensures Leads(w, Run(keying, w, [Arrive(r, route)] + Visit(r, text)), r, route, Done,
                  w.data[KeyOf(keying, route) := IsrEntry(route.path, text, route.revalidate, w.now)])
  {
    Arrives(keying, w, r, route);
    var w1, made := Run(keying, w, [Arrive(r, route)]), IsrEntry(route.path, text, route.revalidate, w.now);
    Proceeds(keying, w1, r, route, Arrived, Visit(r, text));
    VisitProgress(keying, r, route, w.data, w.now, text);
    RunJoins(keying, w, [Arrive(r, route)], Visit(r, text));
    LeadsOn(w, w1, Run(keying, w, [Arrive(r, route)] + Visit(r, text)), r, route,
            Arrived, Done, w.data, w.data[KeyOf(keying, route) := made]);
  }

  /** A page rendered and left alone for two lifetimes. */
  lemma PageExpires(keying: Keying, start: int, route: Route, text: string) returns (moves: seq<Move>)
    ensures var w := Play(keying, start, moves);
      KeyOf(keying, route) in w.data && Expired(w.data[KeyOf(keying, route)], w.now)
  {
    var visit, wait := [Arrive(0, route)] + Visit(0, text), Tick(2 * Life(route.revalidate) + 1);
    Visits(keying, Initial(start), 0, route, text);
    PlayRun(keying, start, [], visit);
    assert [] + visit == visit;
    moves := visit + [wait];
    assert moves[..|visit|] == visit;
  }

  /** So there are such runs, for every route: the store loses a page at the very moment it was rendered. */
  lemma StoreForgets(keying: Keying, start: int, route: Route, text: string)
    ensures exists moves, late :: var w, key := Play(keying, start, moves), KeyOf(keying, route);
      && key in w.data && w.data[key] == IsrEntry(route.path, text, route.revalidate, w.now)
      && !Expired(w.data[key], w.now)
      && key !in Step(keying, w, DeleteExpired(late)).data
  {
    var before := PageExpires(keying, start, route, text);
    var more, late := FreshPageIsLost(keying, start, before, route, text);
  }

  // ----- The store may go back to an older page -----

  /** The move stores, under the key, a page stamped before the one that is there. */
  predicate StoresOlder(keying: Keying, w: World, m: Move, key: string)
    requires key in w.data
  {
    match m
    case Store(r) =>
      Has(w, r) && w.requests[r].Storing? && KeyOf(keying, w.routes[r]) == key
      && w.requests[r].e.page.stamp < w.data[key].page.stamp
    case TaskStore(t) =>
      t in w.tasks && w.tasks[t].Writing? && KeyOf(keying, w.tasks[t].route) == key
      && w.tasks[t].e.page.stamp < w.data[key].page.stamp
    case _ => false
  }

  lemma AdvanceStores(keying: Keying, m: Move, q: Request, route: Route, data: map<string, Entry>, now: int,
                      key: string)
    requires OfRequest(m) && key in data && key in Advance(keying, m, q, route, data, now).data
    ensures Advance(keying, m, q, route, data, now).data[key]
         == if m.Store? && q.Storing? && KeyOf(keying, route) == key then q.e else data[key]
  {
  }

  /** What is under a key gets older exactly when somebody stores a page whose rendering ended before that of the page
      there: nothing compares the two. */
  lemma GoesBackIff(keying: Keying, w: World, m: Move, key: string)
    requires key in w.data && key in Step(keying, w, m).data
    ensures Step(keying, w, m).data[key].page.stamp < w.data[key].page.stamp <==> StoresOlder(keying, w, m, key)
  {
    if OfRequest(m) && Has(w, m.r) {
      AdvanceStores(keying, m, w.requests[m.r], w.routes[m.r], w.data, w.now, key);
    }
  }

  function RendersOnly(r: nat, text: string): seq<Move> { [Look(r), Finish(r, Some(text))] }

  lemma RendersOnlyProgress(keying: Keying, r: nat, route: Route, data: map<string, Entry>, now: int, text: string)
    requires KeyOf(keying, route) !in data
    ensures Progress(keying, RendersOnly(r, text), Arrived, route, data, now)
         == Effect(Storing(IsrEntry(route.path, text, route.revalidate, now)), data, None)
  {
    ProgressTwo(keying, Look(r), Finish(r, Some(text)), Arrived, route, data, now);
  }

  /** A request that has rendered and not yet stored. */
  lemma HoldsRendering(keying: Keying, w: World, r: nat, route: Route, text: string)
    requires r !in w.requests && r !in w.routes && KeyOf(keying, route) !in w.data
    ensures Leads(w, Run(keying, w, [Arrive(r, route)] + RendersOnly(r, text)), r, route,
                  Storing(IsrEntry(route.path, text, route.revalidate, w.now)), w.data)
  {
    Arrives(keying, w, r, route);
    var w1, made := Run(keying, w, [Arrive(r, route)]), IsrEntry(route.path, text, route.revalidate, w.now);
    RendersOnlyProgress(keying, r, route, w.data, w.now, text);
    Proceeds(keying, w1, r, route, Arrived, RendersOnly(r, text));
    RunJoins(keying, w, [Arrive(r, route)], RendersOnly(r, text));
    LeadsOn(w, w1, Run(keying, w, [Arrive(r, route)] + RendersOnly(r, text)), r, route,
            Arrived, Storing(made), w.data, w.data);
  }

  function Newer(r: nat, route: Route, text: string): seq<Move> { [Arrive(r, route)] + Visit(r, text) }

  function Later(w: World): World { w.(now := w.now + 1) }

  lemma StoresHeld(keying: Keying, w: World, r: nat, route: Route, e: Entry)
    requires On(w, r, route, Storing(e))
    ensures Step(keying, w, Store(r)).data == w.data[KeyOf(keying, route) := e]
  {
    Next(keying, w, route, Storing(e), Store(r));
  }

  /** While one request holds its rendering, time passes and a second one renders and stores; then the first stores. */
  lemma Overtakes(keying: Keying, w: World, r: nat, route: Route, e: Entry, other: nat, text: string)
    requires On(w, r, route, Storing(e)) && KeyOf(keying, route) !in w.data
    requires other !in w.requests && other !in w.routes
    ensures var w' := Run(keying, Later(w), Newer(other, route, text));
      && w'.now == w.now + 1
      && w'.data == w.data[KeyOf(keying, route) := IsrEntry(route.path, text, route.revalidate, w'.now)]
      && Step(keying, w', Store(r)).data == w'.data[KeyOf(keying, route) := e]
  {
    Visits(keying, Later(w), other, route, text);
    StoresHeld(keying, Run(keying, Later(w), Newer(other, route, text)), r, route, e);
  }

  lemma PlayLater(keying: Keying, start: int, moves: seq<Move>)
    ensures Play(keying, start, moves + [Tick(1)]) == Later(Play(keying, start, moves))
  {
    assert (moves + [Tick(1)])[..|moves|] == moves;
  }

  lemma PlayTwice(keying: Keying, start: int, first: seq<Move>, second: seq<Move>) returns (moves: seq<Move>)
    ensures Play(keying, start, moves) == Run(keying, Later(Run(keying, Initial(start), first)), second)
  {
    PlayRun(keying, start, [], first);
    assert [] + first == first;
    PlayLater(keying, start, first);
    PlayRun(keying, start, first + [Tick(1)], second);
    moves := first + [Tick(1)] + second;
  }

  /** Such a run: one request renders, a second renders later and stores, and then the first stores. */
  lemma OlderPageReturns(keying: Keying, start: int, route: Route, before: string, after: string)
    ensures exists moves :: var w, key := Play(keying, start, moves), KeyOf(keying, route);
      && key in w.data && w.data[key] == IsrEntry(route.path, after, route.revalidate, w.now) && start < w.now
      && Step(keying, w, Store(0)).data == w.data[key := IsrEntry(route.path, before, route.revalidate, start)]
  {
    var made := IsrEntry(route.path, before, route.revalidate, start);
    var first := [Arrive(0, route)] + RendersOnly(0, before);
    HoldsRendering(keying, Initial(start), 0, route, before);
    Overtakes(keying, Run(keying, Initial(start), first), 0, route, made, 1, after);
    var moves := PlayTwice(keying, start, first, Newer(1, route, after));
  }
}
