/** What a client of the limiter may rely on over whole runs: when it is never refused, and that refused calls
    cost nothing. */
module RateLimitLaws {
  import opened Common
  import opened RateLimit

  // ----- A patient client -----

  /** Long enough for one token to arrive. */
  predicate Apart(cfg: Config, s: real, t: real) {
    1.0 <= Earned(cfg, s, t)
  }

  /** Any two calls of key are far enough apart for one token to arrive. */
  ghost predicate Spaced(cfg: Config, calls: seq<Call>, key: string) {
    forall i, j :: 0 <= i < j < |calls| && calls[i].key == calls[j].key == key ==>
      Apart(cfg, calls[i].now, calls[j].now)
  }

  ghost predicate ReadyFor(cfg: Config, m: Buckets, calls: seq<Call>, key: string) {
    key in m ==>
      && 0.0 <= m[key].tokens
      && forall i :: 0 <= i < |calls| && calls[i].key == key ==> Apart(cfg, m[key].last, calls[i].now)
  }

  lemma SpacedStep(cfg: Config, gc: bool, m: Buckets, calls: seq<Call>, key: string)
    requires 1.0 <= cfg.burst && calls != [] && Spaced(cfg, calls, key) && ReadyFor(cfg, m, calls, key)
    ensures calls[0].key == key ==> AllowStep(cfg, gc, m, calls[0]).1
    ensures Spaced(cfg, calls[1..], key) && ReadyFor(cfg, AllowStep(cfg, gc, m, calls[0]).0, calls[1..], key)
  {
    var c, rest := calls[0], calls[1..];
    assert forall i :: 0 <= i < |rest| ==> rest[i] == calls[i + 1];
    if c.key == key && key in m {
      assert Level(cfg, m[key], c.now) >= 1.0;
    }
  }

  lemma {:induction false} SpacedFrom(cfg: Config, gc: bool, m: Buckets, calls: seq<Call>, key: string, k: nat)
    requires 1.0 <= cfg.burst && Spaced(cfg, calls, key) && ReadyFor(cfg, m, calls, key)
    requires k < |calls| && calls[k].key == key
    ensures Run(cfg, gc, m, calls)[k]
    decreases k
  {
    var m' := AllowStep(cfg, gc, m, calls[0]).0;
    SpacedStep(cfg, gc, m, calls, key);
    if k > 0 {
      SpacedFrom(cfg, gc, m', calls[1..], key, k - 1);
    }
  }

  predicate AllowedAt(cfg: Config, calls: seq<Call>, key: string, k: nat)
    requires k < |calls|
  {
    calls[k].key == key ==> Run(cfg, true, map[], calls)[k]
  }

  /** Whatever other clients do and whenever buckets are collected, a client whose calls are at least 1/rps apart is
      never refused. */
  ghost predicate NeverRefusesPatient(cfg: Config) {
    forall calls, key, k: nat :: Spaced(cfg, calls, key) && k < |calls| ==> AllowedAt(cfg, calls, key, k)
  }

  /** Main result: patience is rewarded if and only if the burst is at least one token. */
  lemma NeverRefusesPatientIff(cfg: Config)
    requires cfg.rps > 0.0
    ensures NeverRefusesPatient(cfg) <==> 1.0 <= cfg.burst
  {
    if 1.0 <= cfg.burst {
      forall calls: seq<Call>, key: string, k: nat | Spaced(cfg, calls, key) && k < |calls|
        ensures AllowedAt(cfg, calls, key, k)
      {
        if calls[k].key == key {
          SpacedFrom(cfg, true, map[], calls, key, k);
        }
      }
    } else {
      var gap := 1.0 / cfg.rps;
      var times := [0.0, gap];
      assert gap * cfg.rps == 1.0 && Earned(cfg, 0.0, gap) == 1.0;
      assert times[1..] == [gap] && [gap][1..] == [];
      RunIsRunOne(cfg, true, map[], "", times);
      assert Spaced(cfg, CallsOf("", times), "");
      assert !RunOne(cfg, None, times)[1];
      assert !AllowedAt(cfg, CallsOf("", times), "", 1);
    }
  }

  // ----- Refused calls cost nothing -----

  /** Two maps that will give the same answers from time t on. */
  ghost predicate Alike(cfg: Config, m: Buckets, n: Buckets, t: real) {
    && m.Keys == n.Keys
    && (cfg.burst < 1.0 || forall k :: k in m ==> Level(cfg, m[k], t) == Level(cfg, n[k], t))
  }

  lemma AlikeStep(cfg: Config, m: Buckets, n: Buckets, t: real, c: Call)
    requires Alike(cfg, m, n, t)
    ensures AllowStep(cfg, false, m, c).1 == AllowStep(cfg, false, n, c).1
    ensures Alike(cfg, AllowStep(cfg, false, m, c).0, AllowStep(cfg, false, n, c).0, t)
  {
    if c.key in m && cfg.burst >= 1.0 {
      SameLineLater(cfg, m[c.key], n[c.key], t, c.now);
    }
  }

  lemma {:induction false} AlikeRun(cfg: Config, m: Buckets, n: Buckets, t: real, calls: seq<Call>)
    requires Alike(cfg, m, n, t)
    ensures Run(cfg, false, m, calls) == Run(cfg, false, n, calls)
    decreases |calls|
  {
    if calls != [] {
      AlikeStep(cfg, m, n, t, calls[0]);
      AlikeRun(cfg, AllowStep(cfg, false, m, calls[0]).0, AllowStep(cfg, false, n, calls[0]).0, t, calls[1..]);
    }
  }

  lemma RefusalKeepsLine(cfg: Config, m: Buckets, c: Call)
    requires !AllowStep(cfg, false, m, c).1
    ensures Alike(cfg, m, AllowStep(cfg, false, m, c).0, c.now)
  {
    EarnedNothing(cfg, c.now);
  }

  /** Without collection: leaving a refused call out of the run changes no other answer. */
  lemma RefusedIsInvisibleUncollected(cfg: Config, p: seq<Call>, c: Call, q: seq<Call>)
    requires !Run(cfg, false, map[], p + [c] + q)[|p|]
    ensures Run(cfg, false, map[], p + [c] + q)
            == Run(cfg, false, map[], p + q)[..|p|] + [false] + Run(cfg, false, map[], p + q)[|p|..]
  {
    var m := Final(cfg, false, map[], p);
    RunConcat(cfg, false, map[], p, [c] + q);
    RunConcat(cfg, false, map[], p, q);
    assert p + [c] + q == p + ([c] + q);
    assert ([c] + q)[1..] == q;
    RefusalKeepsLine(cfg, m, c);
    AlikeRun(cfg, m, AllowStep(cfg, false, m, c).0, c.now, q);
  }

  lemma RefusedIsInvisible(cfg: Config, p: seq<Call>, c: Call, q: seq<Call>)
    requires cfg.rps > 0.0 && Transparent(cfg) && Ordered(p + [c] + q)
    requires !Run(cfg, true, map[], p + [c] + q)[|p|]
    ensures Run(cfg, true, map[], p + [c] + q)
            == Run(cfg, true, map[], p + q)[..|p|] + [false] + Run(cfg, true, map[], p + q)[|p|..]
  {
    CollectorInvisibleIff(cfg);
    var all := p + [c] + q;
    forall i, j | 0 <= i < j < |p + q| ensures (p + q)[i].now <= (p + q)[j].now {
      var i', j' := if i < |p| then i else i + 1, if j < |p| then j else j + 1;
      assert all[i'] == (p + q)[i] && all[j'] == (p + q)[j];
    }
    assert Ordered(p + q);
    RefusedIsInvisibleUncollected(cfg, p, c, q);
  }

  /** Leaving any refused call out of any run with a nondecreasing clock changes no other answer. */
  ghost predicate RefusedInvisible(cfg: Config) {
    forall p, c, q :: Ordered(p + [c] + q) && !Run(cfg, true, map[], p + [c] + q)[|p|] ==>
      Run(cfg, true, map[], p + [c] + q)
      == Run(cfg, true, map[], p + q)[..|p|] + [false] + Run(cfg, true, map[], p + q)[|p|..]
  }

  /** A refused call puts off the client's collection: a client with bucket b that is refused at u keeps its bucket at
      t, where without the refused call it would have lost it. */
  lemma RefusalShows(cfg: Config, before: seq<real>, b: Bucket, u: real, b': Bucket, t: real, probes: seq<real>)
    requires before != [] && FinalOne(cfg, None, before) == Some(b) && Spend(cfg, b, u) == (b', false)
    requires t - u <= IDLE_SECONDS < t - b.last
    requires Ordered(Scenario(before + [u], t, probes))
    requires RunOne(cfg, Some(b'), probes) != RunOne(cfg, None, probes)
    ensures !RefusedInvisible(cfg)
  {
    var p, c, q := CallsOf("", before), Call("", u), Rest(t, probes);
    OneMore(cfg, before, b, u, b');
    ScenarioPutIn(before, u, t, probes);
    RefusedAt(cfg, before, b, u, b', q);
    EndsDiffer(cfg, before, b, u, b', t, probes);
    PutIn(Run(cfg, true, map[], p + q), |before|, GC_THRESHOLD);
  }

  /** What follows the client's own calls. */
  function Rest(t: real, probes: seq<real>): seq<Call> { Crowd(1, GC_THRESHOLD, t) + CallsOf("", probes) }

  lemma ScenarioPutIn(before: seq<real>, u: real, t: real, probes: seq<real>)
    ensures Scenario(before + [u], t, probes) == CallsOf("", before) + [Call("", u)] + Rest(t, probes)
    ensures Scenario(before, t, probes) == CallsOf("", before) + Rest(t, probes)
  {
    assert CallsOf("", before + [u]) == CallsOf("", before) + [Call("", u)];
  }

  lemma EndsDiffer(cfg: Config, before: seq<real>, b: Bucket, u: real, b': Bucket, t: real, probes: seq<real>)
    requires before != [] && FinalOne(cfg, None, before) == Some(b) && Spend(cfg, b, u) == (b', false)
    requires t - u <= IDLE_SECONDS < t - b.last && RunOne(cfg, Some(b'), probes) != RunOne(cfg, None, probes)
    ensures Run(cfg, true, map[], Scenario(before + [u], t, probes))[|before| + 1 + GC_THRESHOLD..]
         != Run(cfg, true, map[], Scenario(before, t, probes))[|before| + GC_THRESHOLD..]
  {
    OneMore(cfg, before, b, u, b');
    ScenarioEnd(cfg, true, before, b, t, probes);
    ScenarioEnd(cfg, true, before + [u], b', t, probes);
  }

  lemma PutIn(answers: seq<bool>, n: nat, k: nat)
    requires n + k <= |answers|
    ensures (answers[..n] + [false] + answers[n..])[n + 1 + k..] == answers[n + k..]
  {
  }

  lemma {:induction false} FinalOneJoins(cfg: Config, b: Option<Bucket>, times: seq<real>, u: real)
    ensures FinalOne(cfg, b, times + [u]) == Some(AllowOne(cfg, FinalOne(cfg, b, times), u).0)
    ensures RunOne(cfg, b, times + [u]) == RunOne(cfg, b, times) + [AllowOne(cfg, FinalOne(cfg, b, times), u).1]
    decreases |times|
  {
    if times == [] {
      assert [u][1..] == [] && times + [u] == [u];
    } else {
      assert (times + [u])[1..] == times[1..] + [u];
      FinalOneJoins(cfg, Some(AllowOne(cfg, b, times[0]).0), times[1..], u);
    }
  }

  lemma OneMore(cfg: Config, before: seq<real>, b: Bucket, u: real, b': Bucket)
    requires FinalOne(cfg, None, before) == Some(b) && Spend(cfg, b, u) == (b', false)
    ensures FinalOne(cfg, None, before + [u]) == Some(b') && b'.last == u
    ensures !RunOne(cfg, None, before + [u])[|before|]
  {
    FinalOneJoins(cfg, None, before, u);
  }

  lemma RefusedAt(cfg: Config, before: seq<real>, b: Bucket, u: real, b': Bucket, q: seq<Call>)
    requires FinalOne(cfg, None, before) == Some(b) && Spend(cfg, b, u) == (b', false)
    ensures !Run(cfg, true, map[], CallsOf("", before) + [Call("", u)] + q)[|before|]
  {
    OneMore(cfg, before, b, u, b');
    assert CallsOf("", before + [u]) == CallsOf("", before) + [Call("", u)];
    RunIsRunOne(cfg, true, map[], "", before + [u]);
    RunConcat(cfg, true, map[], CallsOf("", before + [u]), q);
  }

  /** A burst below one token refuses every client that has a bucket. */
  lemma TinyBurstRefuses(cfg: Config, b: Bucket, t: real)
    requires cfg.burst < 1.0
    ensures !Spend(cfg, b, t).1 && Spend(cfg, b, t).0.last == t
    ensures !RunOne(cfg, Some(b), [t])[0] && RunOne(cfg, None, [t])[0]
  {
    assert [t][1..] == [];
  }

  lemma TinyBurstShows(cfg: Config)
    requires cfg.rps > 0.0 && cfg.burst < 1.0
    ensures !RefusedInvisible(cfg)
  {
    var b := Bucket(cfg.burst - 1.0, 0.0);
    var b' := Spend(cfg, b, 1.0).0;
    var t := IDLE_SECONDS + 0.5;
    var before, probes := [0.0], [t];
    assert before[1..] == [] && before + [1.0] == [0.0, 1.0];
    TinyBurstRefuses(cfg, b, 1.0);
    TinyBurstRefuses(cfg, b', t);
    ScenarioOrdered(before + [1.0], t, probes);
    RefusalShows(cfg, before, b, 1.0, b', t, probes);
  }

  /** A moment when a client drained at end may be forgotten, is not full, and was refused no more than the idle time
      before. */
  lemma JustForgettable(cfg: Config, end: real) returns (t: real)
    requires cfg.rps > 0.0 && cfg.burst > IDLE_SECONDS * cfg.rps
    ensures t - end > IDLE_SECONDS && 0.0 <= Earned(cfg, end, t) < cfg.burst
    ensures Earned(cfg, end, t - IDLE_SECONDS) < 1.0
  {
    var late := IdleButNotFull(cfg, end);
    var soon := 0.5 / cfg.rps;
    assert soon * cfg.rps == 0.5;
    var wait := Min(late - end - IDLE_SECONDS, soon);
    t := end + IDLE_SECONDS + wait;
    EarnedSplits(cfg, end, t, late);
    EarnedNonNegative(cfg, t, late);
    EarnedNonNegative(cfg, end, t);
    EarnedSplits(cfg, end, end + wait, end + soon);
    EarnedNonNegative(cfg, end + wait, end + soon);
  }

  lemma LargeBurstShows(cfg: Config)
    requires cfg.rps > 0.0 && cfg.burst >= 1.0 && cfg.burst > IDLE_SECONDS * cfg.rps
    ensures !RefusedInvisible(cfg)
  {
    var rest, end := Drain(cfg, cfg.burst - 1.0, 0.0);
    var before := [0.0] + rest;
    assert before[1..] == rest;
    var t := JustForgettable(cfg, end);
    var u := t - IDLE_SECONDS;
    var b, b' := Bucket(0.0, end), Spend(cfg, Bucket(0.0, end), u).0;
    EarnedNothing(cfg, u);
    var probes := ProbesTell(cfg, end, t);
    SameLineRun(cfg, b, b', u, probes);
    ScenarioOrdered(before + [u], t, probes);
    RefusalShows(cfg, before, b, u, b', t, probes);
  }

  /** Main result: refused calls cost nothing, on any run, if and only if the collector is invisible. */
  lemma RefusedInvisibleIff(cfg: Config)
    requires cfg.rps > 0.0
    ensures RefusedInvisible(cfg) <==> 1.0 <= cfg.burst <= 600.0 * cfg.rps
  {
    if Transparent(cfg) {
      forall p: seq<Call>, c: Call, q: seq<Call> | Ordered(p + [c] + q) && !Run(cfg, true, map[], p + [c] + q)[|p|]
        ensures Run(cfg, true, map[], p + [c] + q)
             == Run(cfg, true, map[], p + q)[..|p|] + [false] + Run(cfg, true, map[], p + q)[|p|..]
      {
        RefusedIsInvisible(cfg, p, c, q);
      }
    } else if cfg.burst < 1.0 {
      TinyBurstShows(cfg);
    } else {
      LargeBurstShows(cfg);
    }
  }
}
