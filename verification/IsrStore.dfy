/** The in-memory page store, irmik/cache/memory.go, its entries, irmik/cache/cache.go, and the router's
    single-flight set, irmik/router/router.go. */
module IsrStore {
  import opened Common

  /** Seconds are counted in nanoseconds. */
  const DEFAULT_LIFE: int := 60 * 1_000_000_000

  /** A rendering: the request path it was made for, what came out, and when it was stamped for how long. */
  datatype Page = Page(path: string, text: string, stamp: int, life: int)

  datatype Entry = Entry(page: Page, staleAt: Option<int>, expiresAt: Option<int>)

  predicate Expired(e: Entry, now: int) {
    e.expiresAt.Some? && now > e.expiresAt.value
  }

  predicate Stale(e: Entry, now: int) {
    if e.staleAt.None? then Expired(e, now) else now > e.staleAt.value
  }

  /** The lifetime isrEntry uses for a route's revalidate setting. */
  function Life(revalidate: int): int { if revalidate <= 0 then DEFAULT_LIFE else revalidate }

  function IsrEntry(path: string, text: string, revalidate: int, now: int): Entry {
    var life := Life(revalidate);
    Entry(Page(path, text, now, life), Some(now + life), Some(now + life * 2))
  }

  /** What serveISR does with an entry the store returned. */
  datatype Verdict = Hit | ServeStale | Miss

  function Judge(e: Entry, now: int): Verdict {
    if !Expired(e, now) then (if Stale(e, now) then ServeStale else Hit)
    else if e.page.text != "" then ServeStale
    else Miss
  }

  datatype Reply = Reply(status: Verdict, text: string) | Failed

  /** serveISR in one instant with nobody else at work: the reply, the new store and whether a background
      rendering was started. rendered is what renderRoute yields. */
  function Serve(data: map<string, Entry>, inflight: set<string>, key: string, path: string, revalidate: int,
                 rendered: Option<string>, now: int): (Reply, map<string, Entry>, bool) {
    if key in data && !Expired(data[key], now) then
      (Reply(Judge(data[key], now), data[key].page.text), data, Stale(data[key], now) && key !in inflight)
    else
      var left := data - {key};
      match rendered
      case None => (Failed, left, false)
      case Some(text) => (Reply(Miss, text), left[key := IsrEntry(path, text, revalidate, now)], false)
  }

  /** A page rendered at t: a hit up to its lifetime, stale but served up to twice that with one background rendering,
      and replaced by a rendering of the request's own after that. */
  lemma ServeByAge(data: map<string, Entry>, inflight: set<string>, key: string, path: string, revalidate: int,
                   rendered: Option<string>, now: int, madeFor: string, text: string, was: int, t: int)
    requires key in data && data[key] == IsrEntry(madeFor, text, was, t)
    ensures var life := if was > 0 then was else 60_000_000_000;
      var (reply, left, background) := Serve(data, inflight, key, path, revalidate, rendered, now);
      if now <= t + life then reply == Reply(Hit, text) && left == data && !background
      else if now <= t + 2 * life then reply == Reply(ServeStale, text) && left == data && background == (key !in inflight)
      else !background && match rendered
        case None => reply == Failed && left == data - {key}
        case Some(out) =>
          && reply == Reply(Miss, out) && left.Keys == data.Keys
          && left[key].page == Page(path, out, now, if revalidate > 0 then revalidate else 60_000_000_000)
  {
  }

  /** With nothing stored for the key the request renders, and what it renders is stored and answered. */
  lemma ServeMissing(data: map<string, Entry>, inflight: set<string>, key: string, path: string, revalidate: int,
                     rendered: Option<string>, now: int)
    requires key !in data
    ensures var life := if revalidate > 0 then revalidate else 60_000_000_000;
      Serve(data, inflight, key, path, revalidate, rendered, now)
      == match rendered
         case None => (Failed, data, false)
         case Some(out) =>
           (Reply(Miss, out), data[key := Entry(Page(path, out, now, life), Some(now + life), Some(now + 2 * life))], false)
  {
    assert data - {key} == data;
  }

  /** What serveISR makes of any entry the store answers with, expired or not. */
  lemma JudgeByAge(madeFor: string, text: string, was: int, t: int, now: int)
    ensures var life := if was > 0 then was else 60_000_000_000;
      Judge(IsrEntry(madeFor, text, was, t), now)
      == if now <= t + life then Hit else if now <= t + 2 * life || text != "" then ServeStale else Miss
  {
  }

  class MemoryStore {
    var data: map<string, Entry>

    constructor ()
      ensures data == map[]
    {
      data := map[];
    }

    /** Get with nobody between its two sections. */
    method Get(key: string, now: int) returns (e: Option<Entry>)
      modifies this
      ensures e == if key in old(data) && !Expired(old(data)[key], now) then Some(old(data)[key]) else None
      ensures data == if key in old(data) && Expired(old(data)[key], now) then old(data) - {key} else old(data)
    {
      if key !in data {
        return None;
      }
      var found := data[key];
      if Expired(found, now) {
        Delete(key);
        return None;
      }
      return Some(found);
    }

    method Set(key: string, e: Entry)
      modifies this
      ensures data == old(data)[key := e]
    {
      data := data[key := e];
    }

    method Delete(key: string)
      modifies this
      ensures data == old(data) - {key}
    {
      data := data - {key};
    }

    method Clear()
      modifies this
      ensures data == map[]
    {
      data := map[];
    }
  }

  class Router {
    const cache: MemoryStore
    var inflight: set<string>

    constructor ()
      ensures inflight == {} && fresh(cache) && cache.data == map[]
    {
      cache := new MemoryStore();
      inflight := {};
    }

    /** The locked part of revalidateAsync: claim the key unless somebody has it. */
    method Claim(key: string) returns (mine: bool)
      modifies `inflight
      ensures mine == (key !in old(inflight)) && inflight == old(inflight) + {key}
    {
      if key in inflight {
        return false;
      }
      inflight := inflight + {key};
      return true;
    }

    method ServeISR(key: string, path: string, revalidate: int, rendered: Option<string>, now: int)
      returns (reply: Reply, background: bool)
      modifies `inflight, cache
      ensures (reply, cache.data, background)
           == Serve(old(cache.data), old(inflight), key, path, revalidate, rendered, now)
      ensures inflight == if background then old(inflight) + {key} else old(inflight)
    {
      background := false;
      var e := cache.Get(key, now);
      if e.Some? {
        var verdict := Judge(e.value, now);
        if verdict == ServeStale {
          background := Claim(key);
        }
        return Reply(verdict, e.value.page.text), background;
      }
      assert cache.data == old(cache.data) - {key};
      if rendered.None? {
        return Failed, false;
      }
      cache.Set(key, IsrEntry(path, rendered.value, revalidate, now));
      return Reply(Miss, rendered.value), false;
    }
  }
}
