/** Sessions as objects over the cloning store of irmik/session/memory.go.

    Go maps are references: a handler that holds a map can change it in place. The store copies every map it
    takes in and every map it gives out, so its contents change only by Save and Delete. */
module Session {
  import opened Common
  import opened SessionLife

  /** A Go map: a mutable box. */
  class GoMap {
    var kv: Values

    constructor (kv: Values)
      ensures this.kv == kv
    {
      this.kv := kv;
    }
  }

  datatype Data = Data(values: GoMap, flash: GoMap, expires: int)

  /** Copying a map entry by entry. */
  method CloneMap(m: GoMap) returns (c: GoMap)
    ensures fresh(c) && c.kv == m.kv
  {
    c := new GoMap(map[]);
    var pending := m.kv.Keys;
    while pending != {}
      invariant pending <= m.kv.Keys
      invariant fresh(c) && c.kv == m.kv - pending
      decreases |pending|
    {
      var k :| k in pending;
      c.kv := c.kv[k := m.kv[k]];
      assert m.kv - (pending - {k}) == (m.kv - pending)[k := m.kv[k]];
      pending := pending - {k};
    }
    assert m.kv - {} == m.kv;
  }

  class MemoryStore {
    var data: map<string, Data>

    /** What the store holds, as values, and the maps that hold it. */
    ghost var contents: Store
    ghost var held: set<GoMap>

    ghost predicate Valid()
      reads this, held
    {
      && data.Keys == contents.Keys
      && forall id :: id in data ==>
        && data[id].values in held && data[id].flash in held
        && contents[id] == Stored(data[id].values.kv, data[id].flash.kv, data[id].expires)
    }

    constructor ()
      ensures Valid() && contents == map[] && held == {}
    {
      data, contents, held := map[], map[], {};
    }

    method Get(id: string, now: int) returns (d: Option<Data>)
      requires Valid()
      modifies this
      ensures Valid() && held == old(held)
      ensures d.Some? ==> fresh(d.value.values) && fresh(d.value.flash) && d.value.values != d.value.flash
      ensures (if d.None? then None else Some(Stored(d.value.values.kv, d.value.flash.kv, d.value.expires)), contents)
           == Fetch(old(contents), id, now)
    {
      if id !in data {
        return None;
      }
      var found := data[id];
      if now > found.expires {
        Delete(id);
        return None;
      }
      var values := CloneMap(found.values);
      var flash := CloneMap(found.flash);
      return Some(Data(values, flash, found.expires));
    }

    method Save(id: string, d: Data)
      requires Valid()
      modifies this
      ensures Valid() && fresh(held - old(held)) && old(held) <= held
      ensures contents == old(contents)[id := Stored(d.values.kv, d.flash.kv, d.expires)]
    {
      var values := CloneMap(d.values);
      var flash := CloneMap(d.flash);
      data := data[id := Data(values, flash, d.expires)];
      contents := contents[id := Stored(values.kv, flash.kv, d.expires)];
      held := held + {values, flash};
    }

    method Delete(id: string)
      requires Valid()
      modifies this
      ensures Valid() && held == old(held) && contents == old(contents) - {id}
    {
      data := data - {id};
      contents := contents - {id};
    }
  }

  /** The per-request session. Its maps belong to the handler; none of them is held by the store. */
  class RequestSession {
    const store: MemoryStore
    const maxAge: int
    var id: string
    var values: GoMap
    var flash: GoMap
    var outFlash: GoMap
    var dirty: bool
    var isNew: bool
    var cookie: Option<string>

    ghost predicate Valid()
      reads this, store, store.held
    {
      && store.Valid()
      && values != flash && values != outFlash && flash != outFlash
      && values !in store.held && flash !in store.held && outFlash !in store.held
    }

    ghost function State(): World
      reads this, values, flash, outFlash, store
    {
      World(Sess(id, values.kv, flash.kv, outFlash.kv, dirty, isNew), store.contents, cookie)
    }

    /** A session with nothing in it yet. */
    constructor Blank(store: MemoryStore, maxAge: int, cookie: Option<string>)
      requires store.Valid()
      ensures Valid() && this.store == store && this.maxAge == maxAge
      ensures fresh(values) && fresh(flash) && fresh(outFlash)
      ensures State() == World(Sess("", map[], map[], map[], false, true), store.contents, cookie)
    {
      this.store, this.maxAge, this.cookie := store, maxAge, cookie;
      values := new GoMap(map[]);
      flash := new GoMap(map[]);
      outFlash := new GoMap(map[]);
      id, dirty, isNew := "", false, true;
    }

    /** The part of load that asks the store. */
    method Fill(now: int)
      requires Valid() && State().sess == Sess("", map[], map[], map[], false, true)
      modifies this, store
      ensures Valid() && State() == Load(old(State()).store, old(State()).cookie, now)
      ensures outFlash == old(outFlash) && (values == old(values) || fresh(values)) && (flash == old(flash) || fresh(flash))
      ensures store.held == old(store.held)
    {
      if cookie.None? || cookie.value == "" {
        return;
      }
      var found := store.Get(cookie.value, now);
      if found.None? {
        return;
      }
      Adopt(cookie.value, found.value);
    }

    /** Take over what the store handed out; incoming flash messages make the session dirty. */
    method Adopt(found: string, d: Data)
      requires Valid() && State().sess == Sess("", map[], map[], map[], false, true)
      requires d.values !in store.held && d.flash !in store.held && d.values != d.flash
      requires {d.values, d.flash} !! {values, flash, outFlash}
      modifies this
      ensures Valid() && outFlash == old(outFlash)
      ensures values == d.values && flash in {old(flash), d.flash}
      ensures State() == World(Sess(found, d.values.kv, d.flash.kv, map[], d.flash.kv != map[], false),
                               old(State()).store, old(State()).cookie)
    {
      id := found;
      values := d.values;
      isNew := false;
      if d.flash.kv != map[] {
        flash := d.flash;
        dirty := true;
      }
    }

    method Set(k: string, v: string)
      requires Valid()
      modifies this, values
      ensures Valid() && State() == Do(maxAge, old(State()), Op.Set(k, v)) && values == old(values)
    {
      values.kv := values.kv[k := v];
      dirty := true;
    }

    method DeleteKey(k: string)
      requires Valid()
      modifies this, values
      ensures Valid() && State() == Do(maxAge, old(State()), Op.Delete(k)) && values == old(values)
    {
      values.kv := values.kv - {k};
      dirty := true;
    }

    method SetFlash(k: string, v: string)
      requires Valid()
      modifies this, outFlash
      ensures Valid() && State() == Do(maxAge, old(State()), Op.SetFlash(k, v)) && outFlash == old(outFlash)
    {
      outFlash.kv := outFlash.kv[k := v];
      dirty := true;
    }

    method PopFlash(k: string) returns (v: Option<string>)
      requires Valid()
      modifies flash
      ensures Valid() && State() == Do(maxAge, old(State()), Op.PopFlash(k))
      ensures v == if k in old(flash.kv) then Some(old(flash.kv)[k]) else None
    {
      v := None;
      if k in flash.kv {
        v := Some(flash.kv[k]);
        flash.kv := flash.kv - {k};
      }
      assert flash.kv == old(flash.kv) - {k};
    }

    /** Three new empty maps. */
    method ResetMaps()
      requires Valid()
      modifies `values, `flash, `outFlash
      ensures Valid() && fresh(values) && fresh(flash) && fresh(outFlash)
      ensures State() == World(old(State()).sess.(values := map[], flash := map[], out := map[]), old(State()).store, old(State()).cookie)
    {
      values := new GoMap(map[]);
      flash := new GoMap(map[]);
      outFlash := new GoMap(map[]);
    }

    method Clear()
      requires Valid()
      modifies this
      ensures Valid() && State() == Do(maxAge, old(State()), Op.Clear)
      ensures fresh(values) && fresh(flash) && fresh(outFlash)
    {
      ResetMaps();
      dirty := true;
    }

    method Persist(now: int, freshId: string)
      requires Valid()
      modifies this, store
      ensures Valid() && State() == SessionLife.Persist(maxAge, old(State()), now, freshId)
      ensures values == old(values) && flash == old(flash) && fresh(outFlash)
      ensures fresh(store.held - old(store.held))
    {
      if id == "" {
        id := freshId;
      }
      WriteOut(now);
      cookie := Some(id);
      dirty, isNew := false, false;
      outFlash := new GoMap(map[]);
    }

    /** The part of persist that hands copies to the store. */
    method WriteOut(now: int)
      requires Valid()
      modifies store
      ensures Valid() && fresh(store.held - old(store.held))
      ensures store.contents == old(store.contents)[id := Stored(values.kv, outFlash.kv, now + maxAge)]
    {
      var v := CloneMap(values);
      var f := CloneMap(outFlash);
      store.Save(id, Data(v, f, now + maxAge));
    }

    method Regenerate(now: int, freshId: string)
      requires Valid()
      modifies this, store
      ensures Valid() && State() == Do(maxAge, old(State()), Op.Regenerate(now, freshId))
      ensures values == old(values) && flash == old(flash) && fresh(outFlash)
    {
      if id != "" {
        store.Delete(id);
      }
      id := "";
      isNew := true;
      dirty := true;
      Persist(now, freshId);
    }

    method Destroy()
      requires Valid()
      modifies this, store
      ensures Valid() && State() == Do(maxAge, old(State()), Op.Destroy)
      ensures fresh(values) && fresh(flash) && fresh(outFlash)
    {
      var was := id;
      ResetMaps();
      id := "";
      dirty := false;
      if was != "" {
        store.Delete(was);
      }
      cookie := None;
    }

    /** Middleware: save what is unsaved when the handler returns. */
    method End(now: int, freshId: string)
      requires Valid()
      modifies this, store
      ensures Valid()
      ensures State() == if old(dirty) then SessionLife.Persist(maxAge, old(State()), now, freshId) else old(State())
    {
      if dirty {
        Persist(now, freshId);
      }
    }
  }

  /** A handler that writes straight into the maps it can reach leaves the store as it was. */
  method HandlerMutation(s: RequestSession, values: Values, flash: Values, out: Values)
    requires s.Valid()
    modifies s.values, s.flash, s.outFlash
    ensures s.Valid() && s.store.contents == old(s.store.contents)
    ensures s.values.kv == values && s.flash.kv == flash && s.outFlash.kv == out
  {
    s.values.kv := values;
    s.flash.kv := flash;
    s.outFlash.kv := out;
  }

  /** Two requests that loaded the same session do not see each other's changes before a save. */
  method RequestsAreIsolated(store: MemoryStore, maxAge: int, cookie: Option<string>, now: int, k: string, v: string)
    returns (a: RequestSession, b: RequestSession)
    requires store.Valid()
    modifies store
    ensures a.Valid() && b.Valid() && fresh(a) && fresh(b) && a.store == store && b.store == store
    ensures b.State() == Load(old(store.contents), cookie, now)
    ensures a.State() == Do(maxAge, Load(old(store.contents), cookie, now), Op.Set(k, v))
  {
    a := new RequestSession.Blank(store, maxAge, cookie);
    a.Fill(now);
    LoadAgain(old(store.contents), cookie, now);
    b := new RequestSession.Blank(store, maxAge, cookie);
    b.Fill(now);
    a.Set(k, v);
  }

  /** Loading does not change what a second load at the same instant finds. */
  lemma LoadAgain(store: Store, cookie: Option<string>, now: int)
    ensures Load(Load(store, cookie, now).store, cookie, now) == Load(store, cookie, now)
  {
  }
}
