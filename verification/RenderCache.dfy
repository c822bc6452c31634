/** The compiled-template cache of irmik/render/render.go.

    A template function is a number naming it. What html/template makes of a source is not modelled: a
    compiled tree records exactly what it was compiled from, and a predicate parses says which sources
    compile. ref is the identity of the tree. */
module RenderCache {
  import opened Common

  type Func = nat
  type Funcs = map<string, Func>
  type Files = map<string, string>
  type Disk = map<string, string>

  /** The island helper that looks up the current implementation when it runs. */
  const ISLAND_HELPER: Func := 0

  /** The island implementation used when none is set. */
  const DEFAULT_ISLAND: Func := 1

  datatype Partials = Partials(files: Files, funcs: Funcs)

  datatype Key = Key(kind: string, path: string)

  datatype Source = Source(kind: string, text: string, funcs: Funcs, partials: Partials)

  /** readAt is the step of the run at which the file was read. */
  datatype Tree = Tree(ref: nat, source: Source, readAt: nat)

  datatype State = State(funcs: Funcs, island: Func, partials: Partials, compiled: map<Key, Tree>, gen: nat)

  // ----- Specification of the critical sections -----

  function Rebuild(funcs: Funcs): Funcs {
    funcs["island" := ISLAND_HELPER]
  }

  function Drop(s: State): State {
    s.(compiled := map[], gen := s.gen + 1)
  }

  function SetIsland(s: State, f: Option<Func>): State {
    Drop(s.(island := if f.None? then DEFAULT_ISLAND else f.value, funcs := Rebuild(s.funcs)))
  }

  function SetFuncs(s: State, fm: Funcs): State {
    Drop(s.(funcs := Rebuild(s.funcs + fm)))
  }

  /** read is what the walk over the partials directory yields, None when it fails. */
  function Reload(s: State, read: Option<Files>): State {
    match read
    case None => s
    case Some(files) => Drop(s.(partials := Partials(files, s.funcs)))
  }

  /** The last section of getCompiled. */
  function Install(s: State, key: Key, gen: nat, t: Tree): (State, Tree) {
    if s.gen != gen then (s, t)
    else if key in s.compiled then (s, s.compiled[key])
    else (s.(compiled := s.compiled[key := t]), t)
  }

  function SourceOf(key: Key, text: string, funcs: Funcs, partials: Partials): Source {
    Source(key.kind, text, funcs, partials)
  }

  // ----- Interleavings -----

  /** A getCompiled between its sections: after the snapshot, or with a tree ready to install. */
  datatype Lookup =
    | Snapped(key: Key, funcs: Funcs, partials: Partials, gen: nat, began: nat)
    | Parsed(key: Key, tree: Tree, gen: nat, began: nat)

  /** A finished getCompiled: the step at which it began, and whether it answers with the tree it compiled itself. */
  datatype Outcome = Outcome(key: Key, tree: Tree, startGen: nat, endGen: nat, began: nat, own: bool)

  /** The funcs and partials of a generation, and the step from which on they were in force. */
  datatype Era = Era(funcs: Funcs, partials: Partials, from: nat)

  /** disks[i] is the disk after i steps, eras[g] generation g. */
  datatype World = World(
    s: State, disks: seq<Disk>, eras: seq<Era>,
    lookups: map<nat, Lookup>, outcomes: seq<Outcome>, refs: nat)

  datatype Move =
    | Edit(disk: Disk)
    | CallSetIsland(f: Option<Func>)
    | CallSetFuncs(fm: Funcs)
    | CallReload(read: Option<Files>)
    | Begin(tid: nat, key: Key)
    | ReadAndParse(tid: nat)
    | Finish(tid: nat)

  function Now(w: World): Disk
    requires w.disks != []
  {
    w.disks[|w.disks| - 1]
  }

  /** Account for a section that may have invalidated the cache. */
  function Settle(w: World, s: State): World {
    if s.gen == w.s.gen then w.(s := s)
    else w.(s := s, eras := w.eras + [Era(s.funcs, s.partials, |w.disks|)])
  }

  function Act(parses: Source -> bool, w: World, m: Move): World
    requires w.disks != []
  {
    match m
    case Edit(_) => w
    case CallSetIsland(f) => Settle(w, SetIsland(w.s, f))
    case CallSetFuncs(fm) => Settle(w, SetFuncs(w.s, fm))
    case CallReload(read) => Settle(w, Reload(w.s, read))
    case Begin(tid, key) =>
      if tid in w.lookups then w
      else if key in w.s.compiled then w.(outcomes := w.outcomes + [Outcome(key, w.s.compiled[key], w.s.gen, w.s.gen, |w.disks| - 1, false)])
      else w.(lookups := w.lookups[tid := Snapped(key, w.s.funcs, w.s.partials, w.s.gen, |w.disks| - 1)])
    case ReadAndParse(tid) =>
      if tid !in w.lookups || !w.lookups[tid].Snapped? then w else
      var Snapped(key, funcs, partials, gen, began) := w.lookups[tid];
      if key.path !in Now(w) then w.(lookups := w.lookups - {tid}) else
      var source := SourceOf(key, Now(w)[key.path], funcs, partials);
      if !parses(source) then w.(lookups := w.lookups - {tid}) else
      w.(lookups := w.lookups[tid := Parsed(key, Tree(w.refs, source, |w.disks| - 1), gen, began)], refs := w.refs + 1)
    case Finish(tid) =>
      if tid !in w.lookups || !w.lookups[tid].Parsed? then w else
      var Parsed(key, tree, gen, began) := w.lookups[tid];
      var (s, t) := Install(w.s, key, gen, tree);
      w.(s := s, lookups := w.lookups - {tid}, outcomes := w.outcomes + [Outcome(key, t, gen, w.s.gen, began, t == tree)])
  }

  /** One step; an Edit replaces the disk by any other. */
  function Next(parses: Source -> bool, w: World, m: Move): World
    requires w.disks != []
  {
    var w' := Act(parses, w, m);
    w'.(disks := w.disks + [if m.Edit? then m.disk else Now(w)])
  }

  function Initial(s: State, disk: Disk): World {
    World(s.(compiled := map[], gen := 0), [disk], [Era(s.funcs, s.partials, 0)], map[], [], 0)
  }

  function Play(parses: Source -> bool, s: State, disk: Disk, moves: seq<Move>): (w: World)
    ensures w.disks != []
    decreases |moves|
  {
    if moves == [] then Initial(s, disk) else
    var n := |moves| - 1;
    Next(parses, Play(parses, s, disk, moves[..n]), moves[n])
  }

  // ----- The invariant -----

  /** t is a compile of key with the given funcs and partials, from a file read at step from or later. */
  ghost predicate FreshCompile(parses: Source -> bool, w: World, key: Key, t: Tree, funcs: Funcs, partials: Partials, from: nat) {
    && from <= t.readAt < |w.disks|
    && key.path in w.disks[t.readAt]
    && t.source == SourceOf(key, w.disks[t.readAt][key.path], funcs, partials)
    && parses(t.source)
  }

  /** t is a compile of key in generation g, from text the file had while or after that generation came into force. */
  ghost predicate InEra(parses: Source -> bool, w: World, key: Key, t: Tree, g: nat)
    requires g < |w.eras|
  {
    FreshCompile(parses, w, key, t, w.eras[g].funcs, w.eras[g].partials, w.eras[g].from)
  }

  ghost predicate ErasOK(w: World) {
    && w.disks != [] && |w.eras| == w.s.gen + 1
    && w.eras[w.s.gen].funcs == w.s.funcs && w.eras[w.s.gen].partials == w.s.partials
  }

  ghost predicate CacheOK(parses: Source -> bool, w: World) {
    w.s.gen < |w.eras| && forall key :: key in w.s.compiled ==> InEra(parses, w, key, w.s.compiled[key], w.s.gen)
  }

  /** A lookup carries the era it started in; if that era is still current, what it read is recent. */
  ghost predicate LookupOK(parses: Source -> bool, w: World, l: Lookup) {
    && l.gen <= w.s.gen < |w.eras|
    && match l
       case Snapped(key, funcs, partials, gen, began) =>
         w.eras[gen].funcs == funcs && w.eras[gen].partials == partials && w.eras[gen].from <= began < |w.disks|
       case Parsed(key, tree, gen, began) => InEra(parses, w, key, tree, gen) && began <= tree.readAt
  }

  ghost predicate LookupsOK(parses: Source -> bool, w: World) {
    forall tid :: tid in w.lookups ==> LookupOK(parses, w, w.lookups[tid])
  }

  /** Every answer was compiled in the era its lookup started in; an answer within the current
      generation is what the cache now holds. */
  ghost predicate OutcomeOK(parses: Source -> bool, w: World, o: Outcome) {
    && o.startGen <= o.endGen <= w.s.gen < |w.eras|
    && InEra(parses, w, o.key, o.tree, o.startGen) && (o.own ==> o.began <= o.tree.readAt)
    && (o.startGen == w.s.gen ==> o.key in w.s.compiled && w.s.compiled[o.key] == o.tree)
  }

  ghost predicate Settled(o: Outcome, p: Outcome) {
    o.key == p.key && o.startGen == o.endGen == p.startGen == p.endGen
  }

  ghost predicate OutcomesOK(parses: Source -> bool, w: World) {
    && (forall i :: 0 <= i < |w.outcomes| ==> OutcomeOK(parses, w, w.outcomes[i]))
    && (forall i, j :: 0 <= i < |w.outcomes| && 0 <= j < |w.outcomes| && Settled(w.outcomes[i], w.outcomes[j]) ==>
          w.outcomes[i].tree == w.outcomes[j].tree)
  }

  ghost predicate Inv(parses: Source -> bool, w: World) {
    ErasOK(w) && CacheOK(parses, w) && LookupsOK(parses, w) && OutcomesOK(parses, w)
  }

  /** Invalidating moves leave nothing cached and open a new era. */
  lemma InvSettle(parses: Source -> bool, w: World, s: State)
    requires Inv(parses, w)
    requires s == w.s || (s.gen == w.s.gen + 1 && s.compiled == map[])
    ensures Inv(parses, Settle(w, s))
  {
  }

  /** Time passes: nothing known about earlier disks changes. */
  lemma InvTick(parses: Source -> bool, w: World, disk: Disk)
    requires Inv(parses, w)
    ensures Inv(parses, w.(disks := w.disks + [disk]))
  {
  }

  /** The current generation has come into force. */
  ghost predicate Current(w: World) { w.s.gen < |w.eras| && w.eras[w.s.gen].from < |w.disks| }

  lemma InvBegin(parses: Source -> bool, w: World, tid: nat, key: Key)
    requires Inv(parses, w) && Current(w)
    ensures Inv(parses, Act(parses, w, Begin(tid, key)))
  {
    if tid !in w.lookups && key in w.s.compiled {
      AddOutcome(parses, w, Outcome(key, w.s.compiled[key], w.s.gen, w.s.gen, |w.disks| - 1, false));
    }
  }

  /** An answer that the cache now holds, or one from an earlier era, can be added to the record. */
  lemma AddOutcome(parses: Source -> bool, w: World, o: Outcome)
    requires Inv(parses, w) && OutcomeOK(parses, w, o) && o.endGen == w.s.gen
    ensures Inv(parses, w.(outcomes := w.outcomes + [o]))
  {
    var w' := w.(outcomes := w.outcomes + [o]);
    forall i | 0 <= i < |w'.outcomes| ensures OutcomeOK(parses, w', w'.outcomes[i]) {
      assert i < |w.outcomes| ==> OutcomeOK(parses, w, w.outcomes[i]);
    }
    assert forall i :: 0 <= i < |w.outcomes| && Settled(w.outcomes[i], o) ==> w.outcomes[i].tree == o.tree;
  }

  /** Only the lookups under way change. */
  lemma InvLookups(parses: Source -> bool, w: World, lookups: map<nat, Lookup>, refs: nat)
    requires Inv(parses, w) && forall tid :: tid in lookups ==> LookupOK(parses, w, lookups[tid])
    ensures Inv(parses, w.(lookups := lookups, refs := refs))
  {
    var w' := w.(lookups := lookups, refs := refs);
    forall tid | tid in lookups ensures LookupOK(parses, w', lookups[tid]) {
      assert LookupOK(parses, w, lookups[tid]);
    }
    forall i | 0 <= i < |w'.outcomes| ensures OutcomeOK(parses, w', w'.outcomes[i]) {
      assert OutcomeOK(parses, w, w.outcomes[i]);
    }
  }

  lemma InvRead(parses: Source -> bool, w: World, tid: nat)
    requires Inv(parses, w)
    ensures Inv(parses, Act(parses, w, ReadAndParse(tid)))
  {
    if tid in w.lookups && w.lookups[tid].Snapped? {
      assert LookupOK(parses, w, w.lookups[tid]);
      var Snapped(key, funcs, partials, gen, began) := w.lookups[tid];
      var w' := Act(parses, w, ReadAndParse(tid));
      assert tid in w'.lookups ==> LookupOK(parses, w, w'.lookups[tid]);
      InvLookups(parses, w, w'.lookups, w'.refs);
    }
  }

  lemma InvInstall(parses: Source -> bool, w: World, key: Key, gen: nat, t: Tree, began: nat)
    requires Inv(parses, w) && LookupOK(parses, w, Parsed(key, t, gen, began))
    ensures Inv(parses, w.(s := Install(w.s, key, gen, t).0))
    ensures var (s, r) := Install(w.s, key, gen, t);
      OutcomeOK(parses, w.(s := s), Outcome(key, r, gen, w.s.gen, began, r == t))
  {
    var (s, r) := Install(w.s, key, gen, t);
    var w' := w.(s := s);
    forall l | l in w'.lookups ensures LookupOK(parses, w', w'.lookups[l]) {
      assert LookupOK(parses, w, w.lookups[l]);
    }
    forall i | 0 <= i < |w'.outcomes| ensures OutcomeOK(parses, w', w'.outcomes[i]) {
      assert OutcomeOK(parses, w, w.outcomes[i]);
    }
  }

  lemma InvForget(parses: Source -> bool, w: World, tid: nat)
    requires Inv(parses, w)
    ensures Inv(parses, w.(lookups := w.lookups - {tid}))
  {
  }

  lemma InvFinish(parses: Source -> bool, w: World, tid: nat)
    requires Inv(parses, w)
    ensures Inv(parses, Act(parses, w, Finish(tid)))
  {
    if tid in w.lookups && w.lookups[tid].Parsed? {
      assert LookupOK(parses, w, w.lookups[tid]);
      var Parsed(key, tree, gen, began) := w.lookups[tid];
      var (s, t) := Install(w.s, key, gen, tree);
      InvForget(parses, w, tid);
      var w1 := w.(lookups := w.lookups - {tid});
      InvInstall(parses, w1, key, gen, tree, began);
      AddOutcome(parses, w1.(s := s), Outcome(key, t, gen, w.s.gen, began, t == tree));
    }
  }

  lemma InvAct(parses: Source -> bool, w: World, m: Move)
    requires Inv(parses, w) && Current(w)
    ensures Inv(parses, Act(parses, w, m))
  {
    match m {
      case Edit(_) =>
      case CallSetIsland(f) => InvSettle(parses, w, SetIsland(w.s, f));
      case CallSetFuncs(fm) => InvSettle(parses, w, SetFuncs(w.s, fm));
      case CallReload(read) => InvSettle(parses, w, Reload(w.s, read));
      case Begin(tid, key) => InvBegin(parses, w, tid, key);
      case ReadAndParse(tid) => InvRead(parses, w, tid);
      case Finish(tid) => InvFinish(parses, w, tid);
    }
  }

  lemma CurrentNext(parses: Source -> bool, w: World, m: Move)
    requires ErasOK(w) && Current(w)
    ensures Current(Next(parses, w, m))
  {
  }

  lemma SameDisks(parses: Source -> bool, w: World, m: Move)
    requires w.disks != []
    ensures Act(parses, w, m).disks == w.disks
  {
  }

  lemma InvNext(parses: Source -> bool, w: World, m: Move)
    requires Inv(parses, w) && Current(w)
    ensures Inv(parses, Next(parses, w, m)) && Current(Next(parses, w, m))
  {
    var w', disk := Act(parses, w, m), if m.Edit? then m.disk else Now(w);
    InvAct(parses, w, m);
    CurrentNext(parses, w, m);
    InvTick(parses, w', disk);
    assert Next(parses, w, m) == w'.(disks := w'.disks + [disk]) by {
      SameDisks(parses, w, m);
    }
  }

  lemma {:induction false} InvPlay(parses: Source -> bool, s: State, disk: Disk, moves: seq<Move>)
    ensures var w := Play(parses, s, disk, moves); Inv(parses, w) && Current(w)
    decreases |moves|
  {
    if moves != [] {
      var n := |moves| - 1;
      InvPlay(parses, s, disk, moves[..n]);
      InvNext(parses, Play(parses, s, disk, moves[..n]), moves[n]);
    }
  }

  // ----- Main results -----

  /** At every moment of every interleaving, what the cache holds for a key is a compile, with the funcs and
      partials now in force, of text its file had at some moment since the last invalidation. */
  lemma CacheAgreesWithFreshCompile(parses: Source -> bool, s: State, disk: Disk, moves: seq<Move>, key: Key)
    requires key in Play(parses, s, disk, moves).s.compiled
    ensures var w := Play(parses, s, disk, moves); var t := w.s.compiled[key];
      && w.s.gen < |w.eras| && w.eras[w.s.gen].from <= t.readAt < |w.disks| && key.path in w.disks[t.readAt]
      && t.source == Source(key.kind, w.disks[t.readAt][key.path], w.s.funcs, w.s.partials)
      && parses(t.source)
  {
    InvPlay(parses, s, disk, moves);
  }

  /** Lookups of one key that start and finish in the same generation return one and the same tree. */
  lemma OneTreePerGeneration(parses: Source -> bool, s: State, disk: Disk, moves: seq<Move>, i: nat, j: nat)
    requires var os := Play(parses, s, disk, moves).outcomes;
      i < |os| && j < |os| && os[i].key == os[j].key
      && os[i].startGen == os[i].endGen == os[j].startGen == os[j].endGen
    ensures var os := Play(parses, s, disk, moves).outcomes; os[i].tree == os[j].tree
  {
    InvPlay(parses, s, disk, moves);
    var os := Play(parses, s, disk, moves).outcomes;
    assert Settled(os[i], os[j]);
  }

  /** A lookup overtaken by an invalidation still answers with the funcs and partials of the generation it started in,
      all of one generation, and with text its file had after that generation came into force; if it compiled the
      tree itself, with text the file had after the lookup began. */
  lemma AnswersAreOfOneEra(parses: Source -> bool, s: State, disk: Disk, moves: seq<Move>, i: nat)
    requires i < |Play(parses, s, disk, moves).outcomes|
    ensures var w := Play(parses, s, disk, moves); var o := w.outcomes[i]; var t := o.tree;
      && o.startGen < |w.eras| && w.eras[o.startGen].from <= t.readAt < |w.disks| && (o.own ==> o.began <= t.readAt)
      && o.key.path in w.disks[t.readAt]
      && t.source == Source(o.key.kind, w.disks[t.readAt][o.key.path], w.eras[o.startGen].funcs, w.eras[o.startGen].partials)
      && parses(t.source)
  {
    InvPlay(parses, s, disk, moves);
    var w := Play(parses, s, disk, moves);
    assert OutcomeOK(parses, w, w.outcomes[i]);
  }

  // ----- Which functions, island and partials are in force -----

  function FuncOf(funcs: Funcs, name: string): Option<Func> { if name in funcs then Some(funcs[name]) else None }

  /** The function last given for the name, or the one there was at the start. */
  function LastFunc(s: State, moves: seq<Move>, name: string): Option<Func>
    decreases |moves|
  {
    if moves == [] then FuncOf(s.funcs, name) else
    match moves[|moves| - 1]
    case CallSetFuncs(fm) => if name in fm then Some(fm[name]) else LastFunc(s, moves[..|moves| - 1], name)
    case _ => LastFunc(s, moves[..|moves| - 1], name)
  }

  /** The implementation last set, the default one if that was nothing. */
  function LastIsland(s: State, moves: seq<Move>): Func
    decreases |moves|
  {
    if moves == [] then s.island else
    match moves[|moves| - 1]
    case CallSetIsland(Some(f)) => f
    case CallSetIsland(None) => DEFAULT_ISLAND
    case _ => LastIsland(s, moves[..|moves| - 1])
  }

  /** The partials of the last walk that succeeded. */
  function LastFiles(s: State, moves: seq<Move>): Files
    decreases |moves|
  {
    if moves == [] then s.partials.files else
    match moves[|moves| - 1]
    case CallReload(Some(files)) => files
    case _ => LastFiles(s, moves[..|moves| - 1])
  }

  predicate Sets(m: Move) { m.CallSetFuncs? || m.CallSetIsland? }

  /** What one move does to what is in force; every other move leaves it alone. */
  lemma InForceStep(parses: Source -> bool, w: World, m: Move, name: string)
    requires w.disks != []
    ensures var s, t := w.s, Next(parses, w, m).s;
      && (name != "island" ==>
            FuncOf(t.funcs, name) == if m.CallSetFuncs? && name in m.fm then Some(m.fm[name]) else FuncOf(s.funcs, name))
      && (Sets(m) ==> FuncOf(t.funcs, "island") == Some(ISLAND_HELPER))
      && (!Sets(m) ==> t.funcs == s.funcs)
      && t.island == (if m.CallSetIsland? then (if m.f.Some? then m.f.value else DEFAULT_ISLAND) else s.island)
      && t.partials.files == (if m.CallReload? && m.read.Some? then m.read.value else s.partials.files)
  {
  }

  /** In every interleaving each function is the one last given for its name, except that the name island stands for the
      island helper as soon as anything has been set; the island is the one last set, and the partials are those
      last read. */
  lemma {:induction false} InForceIsLastSet(parses: Source -> bool, s: State, disk: Disk, moves: seq<Move>, name: string)
    ensures var t := Play(parses, s, disk, moves).s;
      && (name != "island" ==> FuncOf(t.funcs, name) == LastFunc(s, moves, name))
      && ((exists i :: 0 <= i < |moves| && Sets(moves[i])) ==> FuncOf(t.funcs, "island") == Some(ISLAND_HELPER))
      && t.island == LastIsland(s, moves) && t.partials.files == LastFiles(s, moves)
    decreases |moves|
  {
    if moves != [] {
      var n := |moves| - 1;
      InForceIsLastSet(parses, s, disk, moves[..n], name);
      InForceStep(parses, Play(parses, s, disk, moves[..n]), moves[n], name);
      assert forall i :: 0 <= i < n ==> moves[..n][i] == moves[i];
    }
  }

  // ----- Every compile makes a new tree -----

  predicate Ready(w: World, tid: nat) { tid in w.lookups && w.lookups[tid].Parsed? }

  /** Some lookup compiled the tree itself and answered with it. */
  ghost predicate Made(w: World, t: Tree) { exists i :: 0 <= i < |w.outcomes| && w.outcomes[i].own && w.outcomes[i].tree == t }

  ghost predicate Used(w: World, ref: nat) { exists i :: 0 <= i < |w.outcomes| && w.outcomes[i].tree.ref == ref }

  /** Trees about to be installed are new, each its own, and what is cached or answered was made by a lookup. */
  ghost predicate RefsOK(w: World) {
    && (forall tid :: Ready(w, tid) ==> w.lookups[tid].tree.ref < w.refs && !Used(w, w.lookups[tid].tree.ref))
    && (forall s, t :: Ready(w, s) && Ready(w, t) && s != t ==> w.lookups[s].tree.ref != w.lookups[t].tree.ref)
    && (forall i :: 0 <= i < |w.outcomes| ==> w.outcomes[i].tree.ref < w.refs && Made(w, w.outcomes[i].tree))
    && (forall key :: key in w.s.compiled ==> Made(w, w.s.compiled[key]))
    && (forall i, j :: 0 <= i < j < |w.outcomes| && w.outcomes[i].own && w.outcomes[j].own ==>
          w.outcomes[i].tree.ref != w.outcomes[j].tree.ref)
  }

  lemma MadeStays(w: World, o: Outcome, t: Tree)
    requires Made(w, t)
    ensures Made(w.(outcomes := w.outcomes + [o]), t)
  {
    var i :| 0 <= i < |w.outcomes| && w.outcomes[i].own && w.outcomes[i].tree == t;
    assert (w.outcomes + [o])[i] == w.outcomes[i];
  }

  /** Answering with a tree another lookup made. */
  lemma RefsAnswered(w: World, o: Outcome)
    requires RefsOK(w) && Made(w, o.tree) && !o.own
    ensures RefsOK(w.(outcomes := w.outcomes + [o]))
  {
    var w' := w.(outcomes := w.outcomes + [o]);
    var k :| 0 <= k < |w.outcomes| && w.outcomes[k].own && w.outcomes[k].tree == o.tree;
    forall t | Made(w, t) ensures Made(w', t) {
      MadeStays(w, o, t);
    }
    forall tid | Ready(w', tid) ensures !Used(w', w'.lookups[tid].tree.ref) {
      assert Ready(w, tid) && w.outcomes[k].tree.ref != w.lookups[tid].tree.ref;
    }
  }

  /** Answering with a tree of one's own. */
  lemma RefsOwn(w: World, o: Outcome)
    requires RefsOK(w) && o.own && o.tree.ref < w.refs && !Used(w, o.tree.ref)
    requires forall tid :: Ready(w, tid) ==> w.lookups[tid].tree.ref != o.tree.ref
    ensures RefsOK(w.(outcomes := w.outcomes + [o])) && Made(w.(outcomes := w.outcomes + [o]), o.tree)
  {
    var w' := w.(outcomes := w.outcomes + [o]);
    assert w'.outcomes[|w.outcomes|] == o;
    forall t | Made(w, t) ensures Made(w', t) {
      MadeStays(w, o, t);
    }
  }

  lemma RefsForget(w: World, tid: nat)
    requires RefsOK(w)
    ensures RefsOK(w.(lookups := w.lookups - {tid}))
  {
    var w' := w.(lookups := w.lookups - {tid});
    forall t | Ready(w', t) ensures Ready(w, t) && w'.lookups[t] == w.lookups[t] {
    }
    forall t | Made(w, t) ensures Made(w', t) {
    }
  }

  lemma RefsRead(parses: Source -> bool, w: World, tid: nat)
    requires w.disks != [] && RefsOK(w)
    ensures RefsOK(Act(parses, w, ReadAndParse(tid)))
  {
    var w' := Act(parses, w, ReadAndParse(tid));
    if w'.refs == w.refs {
      RefsForget(w, tid);
    } else {
      assert w'.lookups[tid].tree.ref == w.refs;
      assert forall t :: Ready(w', t) && t != tid ==> Ready(w, t);
      assert forall t :: Made(w, t) ==> Made(w', t);
      assert forall ref :: Used(w', ref) ==> Used(w, ref);
    }
  }

  lemma RefsInstall(w: World, s: State, t: Tree)
    requires RefsOK(w) && (forall key :: key in s.compiled ==> Made(w, s.compiled[key]))
    ensures RefsOK(w.(s := s))
  {
    assert forall u :: Made(w, u) ==> Made(w.(s := s), u);
    assert forall ref :: Used(w.(s := s), ref) ==> Used(w, ref);
  }

  lemma RefsAnswer(w: World, tid: nat, o: Outcome)
    requires RefsOK(w) && Ready(w, tid) && o.own == (o.tree == w.lookups[tid].tree) && (!o.own ==> Made(w, o.tree))
    ensures var w1 := w.(lookups := w.lookups - {tid});
      RefsOK(w1.(outcomes := w1.outcomes + [o])) && Made(w1.(outcomes := w1.outcomes + [o]), o.tree)
  {
    var w1 := w.(lookups := w.lookups - {tid});
    RefsForget(w, tid);
    if o.own {
      assert forall u :: Ready(w1, u) ==> Ready(w, u) && u != tid;
      RefsOwn(w1, o);
    } else {
      assert Made(w1, o.tree);
      RefsAnswered(w1, o);
      MadeStays(w1, o, o.tree);
    }
  }

  lemma RefsFinish(parses: Source -> bool, w: World, tid: nat)
    requires w.disks != [] && RefsOK(w)
    ensures RefsOK(Act(parses, w, Finish(tid)))
  {
    if Ready(w, tid) {
      var Parsed(key, tree, gen, began) := w.lookups[tid];
      var (s, t) := Install(w.s, key, gen, tree);
      var o := Outcome(key, t, gen, w.s.gen, began, t == tree);
      var w1 := w.(lookups := w.lookups - {tid});
      var w2 := w1.(outcomes := w1.outcomes + [o]);
      RefsAnswer(w, tid, o);
      assert forall u :: Made(w, u) ==> Made(w1, u);
      forall k | k in s.compiled ensures Made(w2, s.compiled[k]) {
        if k in w.s.compiled && s.compiled[k] == w.s.compiled[k] {
          assert Made(w1, s.compiled[k]);
          MadeStays(w1, o, s.compiled[k]);
        }
      }
      RefsInstall(w2, s, t);
    }
  }

  lemma RefsBegin(parses: Source -> bool, w: World, tid: nat, key: Key)
    requires w.disks != [] && RefsOK(w)
    ensures RefsOK(Act(parses, w, Begin(tid, key)))
  {
    if tid !in w.lookups {
      if key in w.s.compiled {
        RefsAnswered(w, Outcome(key, w.s.compiled[key], w.s.gen, w.s.gen, |w.disks| - 1, false));
      } else {
        var w' := Act(parses, w, Begin(tid, key));
        assert forall t :: Ready(w', t) <==> Ready(w, t);
        assert forall t :: Made(w, t) ==> Made(w', t);
        assert forall ref :: Used(w', ref) ==> Used(w, ref);
      }
    }
  }

  lemma RefsSettle(w: World, s: State)
    requires RefsOK(w) && (s == w.s || s.compiled == map[])
    ensures RefsOK(Settle(w, s))
  {
    var w' := Settle(w, s);
    assert forall t :: Made(w, t) ==> Made(w', t);
    assert forall ref :: Used(w', ref) ==> Used(w, ref);
    assert forall t :: Ready(w', t) <==> Ready(w, t);
  }

  lemma RefsTick(w: World, disk: Disk)
    requires RefsOK(w)
    ensures RefsOK(w.(disks := w.disks + [disk]))
  {
    var w' := w.(disks := w.disks + [disk]);
    assert forall t :: Made(w, t) ==> Made(w', t);
    assert forall ref :: Used(w', ref) ==> Used(w, ref);
    assert forall t :: Ready(w', t) <==> Ready(w, t);
  }

  lemma RefsNext(parses: Source -> bool, w: World, m: Move)
    requires w.disks != [] && RefsOK(w)
    ensures RefsOK(Next(parses, w, m))
  {
    match m {
      case Edit(_) =>
      case CallSetIsland(f) => RefsSettle(w, SetIsland(w.s, f));
      case CallSetFuncs(fm) => RefsSettle(w, SetFuncs(w.s, fm));
      case CallReload(read) => RefsSettle(w, Reload(w.s, read));
      case Begin(tid, key) => RefsBegin(parses, w, tid, key);
      case ReadAndParse(tid) => RefsRead(parses, w, tid);
      case Finish(tid) => RefsFinish(parses, w, tid);
    }
    SameDisks(parses, w, m);
    RefsTick(Act(parses, w, m), if m.Edit? then m.disk else Now(w));
  }

  lemma {:induction false} RefsPlay(parses: Source -> bool, s: State, disk: Disk, moves: seq<Move>)
    ensures RefsOK(Play(parses, s, disk, moves))
    decreases |moves|
  {
    if moves != [] {
      var n := |moves| - 1;
      RefsPlay(parses, s, disk, moves[..n]);
      RefsNext(parses, Play(parses, s, disk, moves[..n]), moves[n]);
    }
  }

  /** In every interleaving each lookup that compiles answers with a tree no other made, and every other lookup with one
      that some lookup made. */
  lemma EveryCompileIsNew(parses: Source -> bool, s: State, disk: Disk, moves: seq<Move>, i: nat, j: nat)
    requires i < |Play(parses, s, disk, moves).outcomes| && j < |Play(parses, s, disk, moves).outcomes|
    ensures var os := Play(parses, s, disk, moves).outcomes;
      && (i != j && os[i].own && os[j].own ==> os[i].tree.ref != os[j].tree.ref)
      && exists k :: 0 <= k < |os| && os[k].own && os[k].tree == os[i].tree
  {
    RefsPlay(parses, s, disk, moves);
    assert Made(Play(parses, s, disk, moves), Play(parses, s, disk, moves).outcomes[i].tree);
  }
}
