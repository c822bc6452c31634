/** The engine of irmik/render/render.go as an object: its critical sections update fields in place and are
    proved equal to the specification in RenderCache; Render wraps a page in its layouts. */
module RenderEngine {
  import opened Common
  import opened RenderCache

  /** What getCompiled answers when nobody interferes: the cached source, or a compile of the file. */
  function Compiled(parses: Source -> bool, s: State, disk: Disk, key: Key): Option<Source> {
    if key in s.compiled then Some(s.compiled[key].source)
    else if key.path !in disk then None
    else
      var source := SourceOf(key, disk[key.path], s.funcs, s.partials);
      if parses(source) then Some(source) else None
  }

  /** Executing a compiled source on the request's data, with the inner content for a layout. */
  type Exec = (Source, Option<string>) -> Option<string>

  function RunPage(parses: Source -> bool, exec: Exec, s: State, disk: Disk, page: string): Option<string> {
    var source := Compiled(parses, s, disk, Key("page", page));
    if source.None? then None else exec(source.value, None)
  }

  function Wrap(parses: Source -> bool, exec: Exec, s: State, disk: Disk, layout: string, inner: Option<string>): Option<string> {
    var source := Compiled(parses, s, disk, Key("layout", layout));
    if inner.None? || source.None? then None else exec(source.value, inner)
  }

  /** The page inside its layouts, the first layout outermost. */
  function Nested(parses: Source -> bool, exec: Exec, s: State, disk: Disk, page: string, layouts: seq<string>): Option<string>
    decreases |layouts|
  {
    if layouts == [] then RunPage(parses, exec, s, disk, page)
    else Wrap(parses, exec, s, disk, layouts[0], Nested(parses, exec, s, disk, page, layouts[1..]))
  }

  // ----- What a page inside layouts is -----

  /** What a template's source is: that of the cached tree, or the file's text with the engine's functions and partials. */
  predicate IsSource(parses: Source -> bool, s: State, disk: Disk, key: Key, source: Source) {
    if key in s.compiled then source == s.compiled[key].source
    else key.path in disk && source == Source(key.kind, disk[key.path], s.funcs, s.partials) && parses(source)
  }

  /** html is what a template of the given kind makes of the content. */
  ghost predicate Makes(parses: Source -> bool, exec: Exec, s: State, disk: Disk, kind: string, path: string,
                        content: Option<string>, html: string) {
    exists source :: IsSource(parses, s, disk, Key(kind, path), source) && exec(source, content) == Some(html)
  }

  /** The last of outs is the page on its own, each other one a layout around the next. */
  ghost predicate Layered(parses: Source -> bool, exec: Exec, s: State, disk: Disk, page: string, layouts: seq<string>,
                          outs: seq<string>) {
    && |outs| == |layouts| + 1
    && Makes(parses, exec, s, disk, "page", page, None, outs[|layouts|])
    && forall i, j :: 0 <= i && j == i + 1 < |outs| ==>
         Makes(parses, exec, s, disk, "layout", layouts[i], Some(outs[j]), outs[i])
  }

  lemma MakesIff(parses: Source -> bool, exec: Exec, s: State, disk: Disk, kind: string, path: string,
                 content: Option<string>, html: string)
    ensures Makes(parses, exec, s, disk, kind, path, content, html)
      <==> Compiled(parses, s, disk, Key(kind, path)).Some?
           && exec(Compiled(parses, s, disk, Key(kind, path)).value, content) == Some(html)
  {
    var source := Compiled(parses, s, disk, Key(kind, path));
    if source.Some? {
      assert IsSource(parses, s, disk, Key(kind, path), source.value);
    }
  }

  lemma {:induction false} NestedIsLayered(parses: Source -> bool, exec: Exec, s: State, disk: Disk, page: string,
                                           layouts: seq<string>) returns (outs: seq<string>)
    requires Nested(parses, exec, s, disk, page, layouts).Some?
    ensures Layered(parses, exec, s, disk, page, layouts, outs)
    ensures outs[0] == Nested(parses, exec, s, disk, page, layouts).value
    decreases |layouts|
  {
    var html := Nested(parses, exec, s, disk, page, layouts).value;
    if layouts == [] {
      MakesIff(parses, exec, s, disk, "page", page, None, html);
      outs := [html];
    } else {
      var rest := NestedIsLayered(parses, exec, s, disk, page, layouts[1..]);
      MakesIff(parses, exec, s, disk, "layout", layouts[0], Some(rest[0]), html);
      outs := [html] + rest;
      forall i, j | 0 <= i && j == i + 1 < |outs|
        ensures Makes(parses, exec, s, disk, "layout", layouts[i], Some(outs[j]), outs[i])
      {
        if i > 0 {
          assert Makes(parses, exec, s, disk, "layout", layouts[1..][i - 1], Some(rest[j - 1]), rest[i - 1]);
        }
      }
    }
  }

  lemma {:induction false} LayeredIsNested(parses: Source -> bool, exec: Exec, s: State, disk: Disk, page: string,
                                           layouts: seq<string>, outs: seq<string>)
    requires Layered(parses, exec, s, disk, page, layouts, outs)
    ensures Nested(parses, exec, s, disk, page, layouts) == Some(outs[0])
    decreases |layouts|
  {
    if layouts == [] {
      MakesIff(parses, exec, s, disk, "page", page, None, outs[0]);
    } else {
      var rest := outs[1..];
      forall i, j | 0 <= i && j == i + 1 < |rest|
        ensures Makes(parses, exec, s, disk, "layout", layouts[1..][i], Some(rest[j]), rest[i])
      {
        assert Makes(parses, exec, s, disk, "layout", layouts[i + 1], Some(outs[j + 1]), outs[i + 1]);
      }
      LayeredIsNested(parses, exec, s, disk, page, layouts[1..], rest);
      MakesIff(parses, exec, s, disk, "layout", layouts[0], Some(outs[1]), outs[0]);
    }
  }

  /** Main result: a page comes out as html exactly when html is the first layout around the second and so on down to the
      page on its own, each from the cached template or the file with the engine's functions and partials. */
  lemma RenderIff(parses: Source -> bool, exec: Exec, s: State, disk: Disk, page: string, layouts: seq<string>)
    ensures forall html :: Nested(parses, exec, s, disk, page, layouts) == Some(html) <==>
      exists outs :: Layered(parses, exec, s, disk, page, layouts, outs) && outs[0] == html
  {
    if Nested(parses, exec, s, disk, page, layouts).Some? {
      var outs := NestedIsLayered(parses, exec, s, disk, page, layouts);
    }
    forall outs | Layered(parses, exec, s, disk, page, layouts, outs)
      ensures Nested(parses, exec, s, disk, page, layouts) == Some(outs[0])
    {
      LayeredIsNested(parses, exec, s, disk, page, layouts, outs);
    }
  }

  /** Two engine states that compile every key alike on this disk. */
  ghost predicate SameAnswers(parses: Source -> bool, s: State, t: State, disk: Disk) {
    forall key :: Compiled(parses, s, disk, key) == Compiled(parses, t, disk, key)
  }

  class Engine {
    var funcs: Funcs
    var island: Func
    var partials: Partials
    var compiled: map<Key, Tree>
    var compileGen: nat

    function Value(): State
      reads this
    {
      State(funcs, island, partials, compiled, compileGen)
    }

    constructor (helpers: Funcs, opts: Funcs, files: Files)
      ensures var funcs := Rebuild(helpers + opts);
        Value() == State(funcs, DEFAULT_ISLAND, Partials(files, funcs), map[], 1)
    {
      island, compiled, compileGen := DEFAULT_ISLAND, map[], 0;
      funcs, partials := helpers + opts, Partials(map[], map[]);
      new;
      RebuildFuncs();
      var _ := Reload(Some(files));
    }

    method SetIslandFunc(f: Option<Func>)
      modifies this
      ensures Value() == SetIsland(old(Value()), f)
    {
      island := if f.None? then DEFAULT_ISLAND else f.value;
      RebuildFuncs();
      DropCompiledLocked();
    }

    method SetFuncs(fm: Funcs)
      modifies this
      ensures Value() == RenderCache.SetFuncs(old(Value()), fm)
    {
      MergeFuncs(fm);
      RebuildFuncs();
      DropCompiledLocked();
    }

    /** The loop of SetFuncs. */
    method MergeFuncs(fm: Funcs)
      modifies `funcs
      ensures funcs == old(funcs) + fm
    {
      var pending := fm.Keys;
      while pending != {}
        invariant pending <= fm.Keys
        invariant funcs == old(funcs) + (fm - pending)
        decreases |pending|
      {
        var k :| k in pending;
        funcs := funcs[k := fm[k]];
        assert fm - (pending - {k}) == (fm - pending)[k := fm[k]];
        pending := pending - {k};
      }
      assert fm - {} == fm;
    }

    method RebuildFuncs()
      modifies `funcs
      ensures funcs == Rebuild(old(funcs))
    {
      var base: Funcs := map["island" := ISLAND_HELPER];
      var pending := funcs.Keys;
      while pending != {}
        invariant pending <= funcs.Keys
        invariant base == Rebuild(funcs - pending)
        decreases |pending|
      {
        var k :| k in pending;
        if k != "island" {
          base := base[k := funcs[k]];
        }
        assert Rebuild(funcs - (pending - {k})) == base;
        pending := pending - {k};
      }
      assert funcs - {} == funcs;
      funcs := base;
    }

    method DropCompiledLocked()
      modifies `compiled, `compileGen
      ensures compiled == map[] && compileGen == old(compileGen) + 1
    {
      compiled := map[];
      compileGen := compileGen + 1;
    }

    method Reload(read: Option<Files>) returns (ok: bool)
      modifies this
      ensures ok == read.Some? && Value() == RenderCache.Reload(old(Value()), read)
    {
      if read.None? {
        return false;
      }
      partials := Partials(read.value, funcs);
      DropCompiledLocked();
      return true;
    }

    /** getCompiled with nobody between its sections. */
    method GetCompiled(parses: Source -> bool, key: Key, disk: Disk, ref: nat, now: nat) returns (t: Option<Tree>)
      modifies `compiled
      ensures (if t.None? then None else Some(t.value.source)) == Compiled(parses, old(Value()), disk, key)
      ensures if t.None? then compiled == old(compiled) else compiled == old(compiled)[key := t.value]
      ensures SameAnswers(parses, old(Value()), Value(), disk)
    {
      if key in compiled {
        return Some(compiled[key]);
      }
      var gen := compileGen;
      if key.path !in disk {
        return None;
      }
      var source := SourceOf(key, disk[key.path], funcs, partials);
      if !parses(source) {
        return None;
      }
      var r := InstallLocked(key, gen, Tree(ref, source, now));
      return Some(r);
    }

    /** The last section of getCompiled. */
    method InstallLocked(key: Key, gen: nat, t: Tree) returns (r: Tree)
      modifies `compiled
      ensures (Value(), r) == Install(old(Value()), key, gen, t)
    {
      if compileGen == gen {
        if key in compiled {
          return compiled[key];
        }
        compiled := compiled[key := t];
      }
      return t;
    }

    /** Render with nobody between its lookups: the layouts are applied from the innermost out. */
    method Render(parses: Source -> bool, exec: Exec, page: string, layouts: seq<string>, disk: Disk, ref: nat, now: nat)
      returns (out: Option<string>)
      modifies `compiled
      ensures out == Nested(parses, exec, old(Value()), disk, page, layouts)
      ensures forall html :: out == Some(html) <==>
        exists outs :: Layered(parses, exec, old(Value()), disk, page, layouts, outs) && outs[0] == html
      ensures SameAnswers(parses, old(Value()), Value(), disk)
    {
      RenderIff(parses, exec, Value(), disk, page, layouts);
      var pt := GetCompiled(parses, Key("page", page), disk, ref, now);
      if pt.None? {
        NestedFails(parses, exec, Value(), disk, page, layouts, |layouts|);
        NestedSame(parses, exec, old(Value()), Value(), disk, page, layouts);
        return None;
      }
      out := exec(pt.value.source, None);
      var i := |layouts|;
      while out.Some? && i > 0
        invariant 0 <= i <= |layouts|
        invariant SameAnswers(parses, old(Value()), Value(), disk)
        invariant out == Nested(parses, exec, old(Value()), disk, page, layouts[i..])
      {
        i := i - 1;
        assert layouts[i..][1..] == layouts[i + 1..];
        var lt := GetCompiled(parses, Key("layout", layouts[i]), disk, ref + 1 + i, now);
        out := if lt.None? then None else exec(lt.value.source, out);
      }
      if out.None? {
        NestedFails(parses, exec, old(Value()), disk, page, layouts, i);
      }
      assert layouts[0..] == layouts;
    }
  }

  /** Once an inner part fails the whole fails. */
  lemma {:induction false} NestedFails(parses: Source -> bool, exec: Exec, s: State, disk: Disk, page: string, layouts: seq<string>, i: nat)
    requires i <= |layouts| && Nested(parses, exec, s, disk, page, layouts[i..]) == None
    ensures Nested(parses, exec, s, disk, page, layouts) == None
    decreases i
  {
    if i == 0 {
      assert layouts[0..] == layouts;
    } else {
      assert layouts[i - 1..][1..] == layouts[i..];
      NestedFails(parses, exec, s, disk, page, layouts, i - 1);
    }
  }

  lemma {:induction false} NestedSame(parses: Source -> bool, exec: Exec, s: State, t: State, disk: Disk, page: string, layouts: seq<string>)
    requires SameAnswers(parses, s, t, disk)
    ensures Nested(parses, exec, s, disk, page, layouts) == Nested(parses, exec, t, disk, page, layouts)
    decreases |layouts|
  {
    assert Compiled(parses, s, disk, Key("page", page)) == Compiled(parses, t, disk, Key("page", page));
    if layouts != [] {
      NestedSame(parses, exec, s, t, disk, page, layouts[1..]);
      assert Compiled(parses, s, disk, Key("layout", layouts[0])) == Compiled(parses, t, disk, Key("layout", layouts[0]));
    }
  }

  /** What is cached is served whatever happens to the disk. */
  lemma {:induction false} CachedIgnoresDisk(parses: Source -> bool, exec: Exec, s: State, d: Disk, e: Disk, page: string, layouts: seq<string>)
    requires Key("page", page) in s.compiled
    requires forall i :: 0 <= i < |layouts| ==> Key("layout", layouts[i]) in s.compiled
    ensures Nested(parses, exec, s, d, page, layouts) == Nested(parses, exec, s, e, page, layouts)
    decreases |layouts|
  {
    if layouts != [] {
      CachedIgnoresDisk(parses, exec, s, d, e, page, layouts[1..]);
    }
  }

  /** After a successful Reload the output is that of a new engine with the same funcs, whatever was cached;
      after a failed one nothing has changed. */
  lemma ReloadForgets(parses: Source -> bool, exec: Exec, s: State, read: Option<Files>, disk: Disk, page: string, layouts: seq<string>)
    ensures Nested(parses, exec, RenderCache.Reload(s, read), disk, page, layouts)
         == Nested(parses, exec, if read.None? then s else State(s.funcs, s.island, Partials(read.value, s.funcs), map[], 0),
                   disk, page, layouts)
  {
  }

  // ----- Alone, the steps of the protocol are one getCompiled -----

  function AloneWorld(parses: Source -> bool, w: World, tid: nat, key: Key): World
    requires w.disks != []
  {
    var w1 := Next(parses, w, Begin(tid, key));
    var w2 := Next(parses, w1, ReadAndParse(tid));
    Next(parses, w2, Finish(tid))
  }

  /** At any moment of any interleaving, a lookup nobody interrupts answers what the one-instant form answers, and leaves
      it in the cache. */
  lemma AloneIsCompiled(parses: Source -> bool, w: World, tid: nat, key: Key)
    requires w.disks != [] && tid !in w.lookups
    ensures var w', source := AloneWorld(parses, w, tid, key), Compiled(parses, w.s, Now(w), key);
      && w'.lookups == w.lookups && w'.s.(compiled := w.s.compiled) == w.s
      && match source
         case None => w'.outcomes == w.outcomes && w'.s == w.s
         case Some(src) =>
           && |w'.outcomes| == |w.outcomes| + 1 && w'.outcomes[..|w.outcomes|] == w.outcomes
           && w'.outcomes[|w.outcomes|].key == key && w'.outcomes[|w.outcomes|].tree.source == src
           && w'.s.compiled == w.s.compiled[key := w'.outcomes[|w.outcomes|].tree]
  {
    var snap := Snapped(key, w.s.funcs, w.s.partials, w.s.gen, |w.disks| - 1);
    assert w.lookups[tid := snap] - {tid} == w.lookups;
  }
}
