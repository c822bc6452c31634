/** The variant cache of irmik/imagex/pipeline.go with a directory, under every interleaving of gets and sets. A get
    looks into memory, reads the file and remembers it in three steps; a set remembers and writes in two. */
module VariantRace {
  import opened Common
  import opened VariantCache

  /** A get that found nothing in memory, or that holds what it read. */
  datatype Getting = Missed(key: string) | Holding(key: string, body: string)

  /** A set that has remembered its body and not yet written it. */
  datatype Setting = Setting(key: string, body: string)

  datatype Reply = Reply(key: string, body: Option<string>)

  datatype World = World(
    mem: Mem, disk: map<string, string>, gets: map<nat, Getting>, sets: map<nat, Setting>, replies: seq<Reply>)

  datatype Move =
    | Look(g: nat, key: string)
    | ReadFile(g: nat)
    | Keep(g: nat)
    | SetMemory(s: nat, key: string, body: string)
    | WriteFile(s: nat)

  /** One step; a move that does not apply changes nothing. */
  function Step(w: World, m: Move): World {
    match m
    case Look(g, key) =>
      if g in w.gets then w
      else if key in w.mem.bodies then w.(replies := w.replies + [Reply(key, Some(w.mem.bodies[key]))])
      else w.(gets := w.gets[g := Missed(key)])
    case ReadFile(g) =>
      if g !in w.gets || !w.gets[g].Missed? then w else
      var key := w.gets[g].key;
      if key in w.disk then w.(gets := w.gets[g := Holding(key, w.disk[key])])
      else w.(gets := w.gets - {g}, replies := w.replies + [Reply(key, None)])
    case Keep(g) =>
      if g !in w.gets || !w.gets[g].Holding? then w else
      var Holding(key, body) := w.gets[g];
      w.(mem := Remember(w.mem, key, body), gets := w.gets - {g}, replies := w.replies + [Reply(key, Some(body))])
    case SetMemory(s, key, body) =>
      if s in w.sets then w else w.(mem := Remember(w.mem, key, body), sets := w.sets[s := Setting(key, body)])
    case WriteFile(s) =>
      if s !in w.sets then w else w.(disk := w.disk[w.sets[s].key := w.sets[s].body], sets := w.sets - {s})
  }

  function Run(w: World, moves: seq<Move>): World
    decreases |moves|
  {
    if moves == [] then w else Step(Run(w, moves[..|moves| - 1]), moves[|moves| - 1])
  }

  // ----- Alone, the steps are one get or one set -----

  lemma AloneIsGet(w: World, g: nat, key: string)
    requires g !in w.gets
    ensures Step(Step(Step(w, Look(g, key)), ReadFile(g)), Keep(g))
         == w.(mem := AfterGet(true, w.mem, w.disk, key),
               replies := w.replies + [Reply(key, Answer(true, w.mem, w.disk, key))])
  {
    assert w.gets[g := Missed(key)] - {g} == w.gets;
    assert w.gets[g := Missed(key)][g := Holding(key, if key in w.disk then w.disk[key] else "")] - {g} == w.gets;
  }

  lemma AloneIsSet(w: World, s: nat, key: string, body: string)
    requires s !in w.sets
    ensures Step(Step(w, SetMemory(s, key, body)), WriteFile(s))
         == w.(mem := Remember(w.mem, key, body), disk := w.disk[key := body])
  {
    assert w.sets[s := Setting(key, body)] - {s} == w.sets;
  }

  // ----- When every get answers one body -----

  /** The directory has the body, and so will every set of the key under way. */
  ghost predicate Written(w: World, key: string, body: string) {
    && key in w.disk && w.disk[key] == body
    && forall s :: s in w.sets && w.sets[s].key == key ==> w.sets[s].body == body
  }

  /** Memory has no other body for the key, and no get holds one. */
  ghost predicate NoOther(w: World, key: string, body: string) {
    && (key in w.mem.bodies ==> w.mem.bodies[key] == body)
    && forall g :: g in w.gets && w.gets[g].Holding? && w.gets[g].key == key ==> w.gets[g].body == body
  }

  predicate SetsNothing(moves: seq<Move>, key: string) {
    forall i :: 0 <= i < |moves| ==> !(moves[i].SetMemory? && moves[i].key == key)
  }

  ghost predicate AllAnswer(replies: seq<Reply>, key: string, body: string) {
    forall i :: 0 <= i < |replies| && replies[i].key == key ==> replies[i].body == Some(body)
  }

  lemma StepKeeps(w: World, m: Move, key: string, body: string)
    requires Written(w, key, body) && NoOther(w, key, body) && !(m.SetMemory? && m.key == key)
    ensures Written(Step(w, m), key, body) && NoOther(Step(w, m), key, body)
    ensures |w.replies| <= |Step(w, m).replies|
    ensures AllAnswer(Step(w, m).replies[|w.replies|..], key, body)
  {
  }

  lemma {:induction false} RunKeeps(w: World, moves: seq<Move>, key: string, body: string)
    requires Written(w, key, body) && NoOther(w, key, body) && SetsNothing(moves, key)
    ensures var w' := Run(w, moves);
      && Written(w', key, body) && NoOther(w', key, body)
      && |w.replies| <= |w'.replies| && AllAnswer(w'.replies[|w.replies|..], key, body)
    decreases |moves|
  {
    if moves != [] {
      var n := |moves| - 1;
      RunKeeps(w, moves[..n], key, body);
      var w1 := Run(w, moves[..n]);
      StepKeeps(w1, moves[n], key, body);
      var w' := Run(w, moves);
      assert w'.replies[|w.replies|..] == w'.replies[|w.replies|..|w1.replies|] + w'.replies[|w1.replies|..];
      assert w'.replies[..|w1.replies|] == w1.replies;
    }
  }

  /** Whatever follows, as long as nobody sets the key, all gets of it answer the body. */
  ghost predicate AlwaysAnswers(w: World, key: string, body: string) {
    forall moves :: SetsNothing(moves, key) ==>
      |w.replies| <= |Run(w, moves).replies| && AllAnswer(Run(w, moves).replies[|w.replies|..], key, body)
  }

  lemma SettledAnswers(w: World, key: string, body: string)
    requires Written(w, key, body) && NoOther(w, key, body)
    ensures AlwaysAnswers(w, key, body)
  {
    forall moves | SetsNothing(moves, key)
      ensures |w.replies| <= |Run(w, moves).replies| && AllAnswer(Run(w, moves).replies[|w.replies|..], key, body)
    {
      RunKeeps(w, moves, key, body);
    }
  }

  // ----- Otherwise another answer can be had -----

  /** One more answer for the key, and not the body. */
  ghost predicate Refutes(w: World, moves: seq<Move>, key: string, body: string) {
    && SetsNothing(moves, key)
    && exists other :: other != Some(body) && Run(w, moves).replies == w.replies + [Reply(key, other)]
  }

  lemma RefutedIsNotAlways(w: World, moves: seq<Move>, key: string, body: string)
    requires Refutes(w, moves, key, body)
    ensures !AlwaysAnswers(w, key, body)
  {
    var other :| other != Some(body) && Run(w, moves).replies == w.replies + [Reply(key, other)];
    var added := Run(w, moves).replies[|w.replies|..];
    assert added == [Reply(key, other)] && added[0].key == key;
  }

  lemma {:induction false} RunJoins(w: World, a: seq<Move>, b: seq<Move>)
    ensures Run(w, a + b) == Run(Run(w, a), b)
    decreases |b|
  {
    if b == [] {
      assert a + b == a;
    } else {
      assert (a + b)[..|a + b| - 1] == a + b[..|b| - 1];
      RunJoins(w, a, b[..|b| - 1]);
    }
  }

  lemma OneMove(w: World, m: Move)
    ensures Run(w, [m]) == Step(w, m)
  {
    assert [m][..0] == [];
  }

  /** What follows a move that answers nothing. */
  lemma RefutesAfter(w: World, m: Move, moves: seq<Move>, key: string, body: string)
    requires Refutes(Step(w, m), moves, key, body) && Step(w, m).replies == w.replies && !(m.SetMemory? && m.key == key)
    ensures Refutes(w, [m] + moves, key, body)
  {
    OneMove(w, m);
    RunJoins(w, [m], moves);
  }

  lemma OtherShows(w: World, key: string, body: string) returns (moves: seq<Move>)
    requires !NoOther(w, key, body)
    ensures Refutes(w, moves, key, body)
  {
    var m: Move;
    if key in w.mem.bodies && w.mem.bodies[key] != body {
      var g := FreshId(w.gets.Keys);
      assert g !in w.gets.Keys;
      m := Look(g, key);
    } else {
      var g :| g in w.gets && w.gets[g].Holding? && w.gets[g].key == key && w.gets[g].body != body;
      m := Keep(g);
    }
    OneMove(w, m);
    moves := [m];
  }

  /** A get of a key that memory does not have answers what the directory has. */
  lemma DiskShows(w: World, key: string, body: string) returns (moves: seq<Move>)
    requires key !in w.mem.bodies && !(key in w.disk && w.disk[key] == body)
    ensures Refutes(w, moves, key, body)
  {
    var g := FreshId(w.gets.Keys);
    assert g !in w.gets.Keys;
    moves := [Look(g, key)] + [ReadFile(g)] + [Keep(g)];
    RunJoins(w, [Look(g, key)] + [ReadFile(g)], [Keep(g)]);
    RunJoins(w, [Look(g, key)], [ReadFile(g)]);
    OneMove(w, Look(g, key));
    OneMove(Step(w, Look(g, key)), ReadFile(g));
    OneMove(Step(Step(w, Look(g, key)), ReadFile(g)), Keep(g));
    AloneIsGet(w, g, key);
    assert Run(w, moves).replies == w.replies + [Reply(key, Answer(true, w.mem, w.disk, key))];
  }

  /** A key that is not among the given ones. */
  lemma FreshKey(keys: set<string>) returns (k: string)
    ensures k !in keys
  {
    var lengths: set<nat> := set s | s in keys :: |s|;
    var n := FreshId(lengths);
    k := seq(n, i => 'x');
    assert k in keys ==> |k| in lengths;
  }

  /** How many first-time sets of other keys push out the key at place i. */
  function Distance(m: Mem, i: nat): int { i + MEM_CACHE_LIMIT - |m.ord| }

  /** Sets of other keys that have only reached memory push the key out, and then the directory shows. */
  lemma {:induction false} EvictedShows(w: World, key: string, body: string, i: nat) returns (moves: seq<Move>)
    requires Valid(w.mem) && i < |w.mem.ord| && w.mem.ord[i] == key && !(key in w.disk && w.disk[key] == body)
    ensures Refutes(w, moves, key, body)
    decreases Distance(w.mem, i)
  {
    var s := FreshId(w.sets.Keys);
    assert s !in w.sets.Keys;
    var other := FreshKey(w.mem.bodies.Keys);
    var m := SetMemory(s, other, "");
    var w1 := Step(w, m);
    RememberKeepsValid(w.mem, other, "");
    var rest: seq<Move>;
    if |w.mem.ord| < MEM_CACHE_LIMIT {
      rest := EvictedShows(w1, key, body, i);
    } else if i > 0 {
      rest := EvictedShows(w1, key, body, i - 1);
    } else {
      rest := DiskShows(w1, key, body);
    }
    RefutesAfter(w, m, rest, key, body);
    moves := [m] + rest;
  }

  lemma WrongDiskShows(w: World, key: string, body: string) returns (moves: seq<Move>)
    requires Valid(w.mem) && !(key in w.disk && w.disk[key] == body)
    ensures Refutes(w, moves, key, body)
  {
    if key in w.mem.bodies {
      var i :| 0 <= i < |w.mem.ord| && w.mem.ord[i] == key;
      moves := EvictedShows(w, key, body, i);
    } else {
      moves := DiskShows(w, key, body);
    }
  }

  /** A set under way with another body gets it into the directory. */
  lemma WrongSetShows(w: World, key: string, body: string, s: nat) returns (moves: seq<Move>)
    requires Valid(w.mem) && s in w.sets && w.sets[s].key == key && w.sets[s].body != body
    ensures Refutes(w, moves, key, body)
  {
    var rest := WrongDiskShows(Step(w, WriteFile(s)), key, body);
    RefutesAfter(w, WriteFile(s), rest, key, body);
    moves := [WriteFile(s)] + rest;
  }

  lemma StepStaysValid(w: World, m: Move)
    requires Valid(w.mem)
    ensures Valid(Step(w, m).mem)
  {
    if m.Keep? && m.g in w.gets && w.gets[m.g].Holding? {
      RememberKeepsValid(w.mem, w.gets[m.g].key, w.gets[m.g].body);
    } else if m.SetMemory? {
      RememberKeepsValid(w.mem, m.key, m.body);
    }
  }

  /** Memory stays in order whatever happens. */
  lemma {:induction false} MemoryStaysValid(w: World, moves: seq<Move>)
    requires Valid(w.mem)
    ensures Valid(Run(w, moves).mem)
    decreases |moves|
  {
    if moves != [] {
      var n := |moves| - 1;
      MemoryStaysValid(w, moves[..n]);
      StepStaysValid(Run(w, moves[..n]), moves[n]);
    }
  }

  /** Main result: at any moment of any run, all gets from then on answer the body until the key is set again, if and
      only if the directory has it, memory has no other, and neither a get nor a set under way holds another. */
  lemma AlwaysAnswersIff(w: World, key: string, body: string)
    requires Valid(w.mem)
    ensures AlwaysAnswers(w, key, body) <==> Written(w, key, body) && NoOther(w, key, body)
  {
    var moves: seq<Move>;
    if Written(w, key, body) && NoOther(w, key, body) {
      SettledAnswers(w, key, body);
    } else {
      if !NoOther(w, key, body) {
        moves := OtherShows(w, key, body);
      } else if !(key in w.disk && w.disk[key] == body) {
        moves := WrongDiskShows(w, key, body);
      } else {
        var s :| s in w.sets && w.sets[s].key == key && w.sets[s].body != body;
        moves := WrongSetShows(w, key, body, s);
      }
      RefutedIsNotAlways(w, moves, key, body);
    }
  }

  /** So a set that overlaps neither another set of its key nor a get that holds its file is answered from then on. */
  lemma SetAloneIsAnswered(w: World, s: nat, key: string, body: string)
    requires s !in w.sets && forall t :: t in w.sets ==> w.sets[t].key != key
    requires forall g :: g in w.gets && w.gets[g].Holding? ==> w.gets[g].key != key
    ensures AlwaysAnswers(Step(Step(w, SetMemory(s, key, body)), WriteFile(s)), key, body)
  {
    AloneIsSet(w, s, key, body);
    SettledAnswers(Step(Step(w, SetMemory(s, key, body)), WriteFile(s)), key, body);
  }

  /** A get that read the old file before a set and remembers it after the set has returned brings the old body back. */
  lemma OldBodyReturns(key: string, before: string, after: string)
    ensures var start := World(Mem(map[], []), map[key := before], map[], map[], []);
      var w1 := Step(Step(start, Look(0, key)), ReadFile(0));
      var w2 := Step(Step(w1, SetMemory(0, key, after)), WriteFile(0));
      var w3 := Step(Step(w2, Keep(0)), Look(1, key));
      && w2.sets == map[] && w2.mem.bodies[key] == after && w2.disk[key] == after
      && w3.replies == [Reply(key, Some(before)), Reply(key, Some(before))]
  {
  }

  /** Two sets at once can leave one body in memory and the other in the directory for good: no body is then the answer
      from then on. */
  lemma SetsDisagree(key: string, a: string, b: string, body: string)
    requires a != b
    ensures var start := World(Mem(map[], []), map[], map[], map[], []);
      var w1 := Step(Step(start, SetMemory(0, key, a)), SetMemory(1, key, b));
      var w2 := Step(Step(w1, WriteFile(1)), WriteFile(0));
      && w2.sets == map[] && w2.mem.bodies[key] == b && w2.disk[key] == a
      && !AlwaysAnswers(w2, key, body)
  {
    var start := World(Mem(map[], []), map[], map[], map[], []);
    var w2 := Step(Step(Step(Step(start, SetMemory(0, key, a)), SetMemory(1, key, b)), WriteFile(1)), WriteFile(0));
    AlwaysAnswersIff(w2, key, body);
  }
}
