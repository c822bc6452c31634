/** How much one client of the limiter gets through in any window of time, and exactly when the collector lets it
    have more. */
module RateLimitWindow {
  import opened Common
  import opened RateLimit

  function Max(a: real, b: real): real { if a < b then b else a }

  /** How many calls of key were allowed at times within [s, t]. */
  function AllowedIn(calls: seq<Call>, answers: seq<bool>, key: string, s: real, t: real): nat
    requires |calls| == |answers|
    decreases |calls|
  {
    if calls == [] then 0 else
    (if calls[0].key == key && s <= calls[0].now <= t && answers[0] then 1 else 0)
    + AllowedIn(calls[1..], answers[1..], key, s, t)
  }

  lemma {:induction false} NothingLater(calls: seq<Call>, answers: seq<bool>, key: string, s: real, t: real)
    requires |calls| == |answers| && forall i :: 0 <= i < |calls| ==> t < calls[i].now
    ensures AllowedIn(calls, answers, key, s, t) == 0
    decreases |calls|
  {
    if calls != [] {
      NothingLater(calls[1..], answers[1..], key, s, t);
    }
  }

  /** What key can still get at time x. A burst below one lets a client through only while it has no bucket: what
      it earns is then counted towards being forgotten. */
  function Available(cfg: Config, m: Buckets, key: string, x: real): real {
    if key !in m then Max(1.0, cfg.burst)
    else if cfg.burst < 1.0 then Min(Earned(cfg, m[key].last, x), 1.0)
    else Min(Level(cfg, m[key], x), cfg.burst)
  }

  ghost predicate Sound(cfg: Config, m: Buckets, key: string, x: real) {
    key in m ==> m[key].last <= x && (1.0 <= cfg.burst ==> 0.0 <= m[key].tokens)
  }

  lemma AvailableNonNegative(cfg: Config, m: Buckets, key: string, x: real)
    requires cfg.rps >= 0.0 && Sound(cfg, m, key, x)
    ensures 0.0 <= Available(cfg, m, key, x)
  {
    if key in m {
      EarnedNonNegative(cfg, m[key].last, x);
    }
  }

  /** Waiting from x to y adds at most what the rate gives. */
  lemma AvailableGrows(cfg: Config, m: Buckets, key: string, x: real, y: real)
    requires cfg.rps >= 0.0 && x <= y
    ensures Available(cfg, m, key, y) <= Available(cfg, m, key, x) + Earned(cfg, x, y)
  {
    EarnedNonNegative(cfg, x, y);
    if key in m {
      EarnedSplits(cfg, m[key].last, x, y);
    }
  }

  /** An idle client has earned all there is to get by the time it may be forgotten. */
  predicate Generous(cfg: Config) {
    Max(1.0, cfg.burst) <= IDLE_SECONDS * cfg.rps
  }

  lemma IdleHasEarned(cfg: Config, last: real, t: real)
    requires cfg.rps >= 0.0 && Generous(cfg) && t - last > IDLE_SECONDS
    ensures Max(1.0, cfg.burst) <= Earned(cfg, last, t)
  {
    Product(t - last - IDLE_SECONDS, cfg.rps);
    assert (t - last) * cfg.rps == (t - last - IDLE_SECONDS) * cfg.rps + IDLE_SECONDS * cfg.rps;
  }

  lemma CollectGivesNothing(cfg: Config, m: Buckets, key: string, t: real)
    requires cfg.rps >= 0.0 && Generous(cfg) && Sound(cfg, m, key, t)
    ensures Sound(cfg, Collect(m, t), key, t)
    ensures Available(cfg, Collect(m, t), key, t) == Available(cfg, m, key, t)
  {
    if key in m && key !in Collect(m, t) {
      IdleHasEarned(cfg, m[key].last, t);
    }
  }

  /** One call spends what it was given. */
  lemma AvailableStep(cfg: Config, gc: bool, m: Buckets, key: string, c: Call)
    requires cfg.rps >= 0.0 && (gc ==> Generous(cfg)) && Sound(cfg, m, key, c.now)
    ensures var (m', ok) := AllowStep(cfg, gc, m, c);
      && Sound(cfg, m', key, c.now)
      && Available(cfg, m', key, c.now)
         <= Available(cfg, m, key, c.now) - (if c.key == key && ok then 1.0 else 0.0)
  {
    AvailableNonNegative(cfg, m, key, c.now);
    EarnedNothing(cfg, c.now);
    if gc && c.key !in m {
      CollectGivesNothing(cfg, m[c.key := Bucket(cfg.burst - 1.0, c.now)], key, c.now);
    }
  }

  lemma AllowedInStep(cfg: Config, gc: bool, m: Buckets, calls: seq<Call>, key: string, s: real, t: real)
    requires calls != []
    ensures var (m', ok) := AllowStep(cfg, gc, m, calls[0]);
      AllowedIn(calls, Run(cfg, gc, m, calls), key, s, t)
      == (if calls[0].key == key && s <= calls[0].now <= t && ok then 1 else 0)
         + AllowedIn(calls[1..], Run(cfg, gc, m', calls[1..]), key, s, t)
  {
  }

  lemma BoundOneMore(cfg: Config, gc: bool, m: Buckets, calls: seq<Call>, key: string, s: real, x: real, t: real)
    requires calls != [] && cfg.rps >= 0.0 && (gc ==> Generous(cfg)) && s <= x <= calls[0].now <= t && Sound(cfg, m, key, x)
    requires var c := calls[0]; var m' := AllowStep(cfg, gc, m, c).0;
      AllowedIn(calls[1..], Run(cfg, gc, m', calls[1..]), key, s, t) as real
      <= Available(cfg, m', key, c.now) + Earned(cfg, c.now, t)
    ensures AllowedIn(calls, Run(cfg, gc, m, calls), key, s, t) as real
            <= Available(cfg, m, key, x) + Earned(cfg, x, t)
  {
    AvailableGrows(cfg, m, key, x, calls[0].now);
    AvailableStep(cfg, gc, m, key, calls[0]);
    AllowedInStep(cfg, gc, m, calls, key, s, t);
    EarnedSplits(cfg, x, calls[0].now, t);
  }

  lemma {:induction false} BoundWithin(cfg: Config, gc: bool, m: Buckets, calls: seq<Call>, key: string, s: real, x: real, t: real)
    requires cfg.rps >= 0.0 && (gc ==> Generous(cfg)) && Ordered(calls) && NotBefore(x, calls) && s <= x <= t && Sound(cfg, m, key, x)
    ensures AllowedIn(calls, Run(cfg, gc, m, calls), key, s, t) as real
            <= Available(cfg, m, key, x) + Earned(cfg, x, t)
    decreases |calls|
  {
    if calls == [] || calls[0].now > t {
      AvailableNonNegative(cfg, m, key, x);
      EarnedNonNegative(cfg, x, t);
      NothingLater(calls, Run(cfg, gc, m, calls), key, s, t);
    } else {
      var c := calls[0];
      var m' := AllowStep(cfg, gc, m, c).0;
      assert Sound(cfg, m, key, c.now);
      AvailableStep(cfg, gc, m, key, c);
      BoundWithin(cfg, gc, m', calls[1..], key, s, c.now, t);
      BoundOneMore(cfg, gc, m, calls, key, s, x, t);
    }
  }

  lemma {:induction false} BoundFrom(cfg: Config, gc: bool, m: Buckets, calls: seq<Call>, key: string, z: real, s: real, t: real)
    requires cfg.rps >= 0.0 && (gc ==> Generous(cfg)) && Ordered(calls) && NotBefore(z, calls) && z <= s <= t && Sound(cfg, m, key, z)
    ensures AllowedIn(calls, Run(cfg, gc, m, calls), key, s, t) as real
            <= Max(1.0, cfg.burst) + Earned(cfg, s, t)
    decreases |calls|
  {
    if calls != [] && calls[0].now < s {
      var c := calls[0];
      AvailableStep(cfg, gc, m, key, c);
      AllowedInStep(cfg, gc, m, calls, key, s, t);
      BoundFrom(cfg, gc, AllowStep(cfg, gc, m, c).0, calls[1..], key, c.now, s, t);
    } else {
      BoundWithin(cfg, gc, m, calls, key, s, s, t);
    }
  }

  /** In every window of every run with a nondecreasing clock, each client is allowed at most the larger of one and
      the burst, plus the refill. */
  ghost predicate WindowBound(cfg: Config, gc: bool) {
    forall calls, key, s, t :: Ordered(calls) && s <= t ==>
      AllowedIn(calls, Run(cfg, gc, map[], calls), key, s, t) as real <= Max(1.0, cfg.burst) + Earned(cfg, s, t)
  }

  lemma WindowHolds(cfg: Config, gc: bool)
    requires cfg.rps >= 0.0 && (gc ==> Generous(cfg))
    ensures WindowBound(cfg, gc)
  {
    forall calls: seq<Call>, key: string, s: real, t: real | Ordered(calls) && s <= t
      ensures AllowedIn(calls, Run(cfg, gc, map[], calls), key, s, t) as real <= Max(1.0, cfg.burst) + Earned(cfg, s, t)
    {
      var z := if calls == [] || s < calls[0].now then s else calls[0].now;
      BoundFrom(cfg, gc, map[], calls, key, z, s, t);
    }
  }

  // ----- A run that breaks the bound when the collector comes too early -----

  lemma {:induction false} AllowedInJoins(a: seq<Call>, b: seq<Call>, x: seq<bool>, y: seq<bool>, key: string, s: real, t: real)
    requires |a| == |x| && |b| == |y|
    ensures AllowedIn(a + b, x + y, key, s, t) == AllowedIn(a, x, key, s, t) + AllowedIn(b, y, key, s, t)
    decreases |a|
  {
    if a == [] {
      assert a + b == b && x + y == y;
    } else {
      assert (a + b)[1..] == a[1..] + b && (x + y)[1..] == x[1..] + y;
      AllowedInJoins(a[1..], b, x[1..], y, key, s, t);
    }
  }

  lemma {:induction false} OwnAllowed(times: seq<real>, answers: seq<bool>, key: string, s: real, t: real)
    requires |times| == |answers| && forall i :: 0 <= i < |times| ==> s <= times[i] <= t
    ensures AllowedIn(CallsOf(key, times), answers, key, s, t) == Count(answers)
    decreases |times|
  {
    if times != [] {
      assert CallsOf(key, times)[1..] == CallsOf(key, times[1..]);
      OwnAllowed(times[1..], answers[1..], key, s, t);
    }
  }

  /** The client with the empty name, a crowd that starts the collector, and the client again: it gets what it got
      before and what a newcomer gets. */
  lemma GetsBoth(cfg: Config, before: seq<real>, b: Bucket, t: real, probes: seq<real>, end: real)
    requires before != [] && FinalOne(cfg, None, before) == Some(b) && t - b.last > IDLE_SECONDS
    requires 0.0 <= t <= end && (forall i :: 0 <= i < |before| ==> 0.0 <= before[i] <= t)
    requires forall i :: 0 <= i < |probes| ==> t <= probes[i] <= end
    ensures var calls := Scenario(before, t, probes);
      AllowedIn(calls, Run(cfg, true, map[], calls), "", 0.0, end)
      >= Count(RunOne(cfg, None, before)) + Count(RunOne(cfg, None, probes))
  {
    var own, crowd, back := CallsOf("", before), Crowd(1, GC_THRESHOLD, t), CallsOf("", probes);
    OwnCallsOnly(cfg, true, before, b);
    var m := map["" := b];
    CrowdDropsBucket(cfg, m, b, 1, t);
    RunConcat(cfg, true, map[], own, crowd);
    RunConcat(cfg, true, map[], own + crowd, back);
    var m' := Final(cfg, true, map[], own + crowd);
    RunIsRunOne(cfg, true, map[], "", before);
    RunIsRunOne(cfg, true, m', "", probes);
    var x, y, z := Run(cfg, true, map[], own), Run(cfg, true, m, crowd), Run(cfg, true, m', back);
    AllowedInJoins(own + crowd, back, x + y, z, "", 0.0, end);
    AllowedInJoins(own, crowd, x, y, "", 0.0, end);
    OwnAllowed(before, x, "", 0.0, end);
    OwnAllowed(probes, z, "", 0.0, end);
  }

  lemma TinyBurstGetsMore(cfg: Config)
    requires cfg.rps > 0.0 && cfg.burst < 1.0 && !Generous(cfg)
    ensures !WindowBound(cfg, true)
  {
    var t := IdleButPoor(cfg, 0.0, 1.0);
    var before, probes := [0.0], [t];
    assert before[1..] == [] && probes[1..] == [];
    var b := Bucket(cfg.burst - 1.0, 0.0);
    ScenarioOrdered(before, t, probes);
    GetsBoth(cfg, before, b, t, probes, t);
    CountFirst(true, []);
    assert RunOne(cfg, None, before) == [true] && RunOne(cfg, None, probes) == [true];
    Breaks(cfg, Scenario(before, t, probes), t);
  }

  /** A moment when a client idle since last may be forgotten and has not earned worth. */
  lemma IdleButPoor(cfg: Config, last: real, worth: real) returns (t: real)
    requires cfg.rps > 0.0 && worth > IDLE_SECONDS * cfg.rps
    ensures t - last > IDLE_SECONDS && 0.0 <= Earned(cfg, last, t) < worth
  {
    t := IdleButNotFull(Config(cfg.rps, worth), last);
  }

  lemma Breaks(cfg: Config, calls: seq<Call>, end: real)
    requires Ordered(calls) && 0.0 <= end
    requires AllowedIn(calls, Run(cfg, true, map[], calls), "", 0.0, end) as real > Max(1.0, cfg.burst) + Earned(cfg, 0.0, end)
    ensures !WindowBound(cfg, true)
  {
  }

  lemma LargeBurstGetsMore(cfg: Config)
    requires cfg.rps > 0.0 && cfg.burst >= 1.0 && !Generous(cfg)
    ensures !WindowBound(cfg, true)
  {
    var rest, last := Drain(cfg, cfg.burst - 1.0, 0.0);
    var before := [0.0] + rest;
    assert before[1..] == rest;
    var t := IdleButPoor(cfg, last, cfg.burst);
    var more, end := Drain(cfg, cfg.burst - 1.0, t);
    var probes := [t] + more;
    assert probes[1..] == more;
    ScenarioOrdered(before, t, probes);
    GetsBoth(cfg, before, Bucket(0.0, last), t, probes, end);
    CountFirst(true, RunOne(cfg, Some(Bucket(cfg.burst - 1.0, 0.0)), rest));
    CountFirst(true, RunOne(cfg, Some(Bucket(cfg.burst - 1.0, t)), more));
    EarnedSplits(cfg, 0.0, last, t);
    EarnedSplits(cfg, 0.0, t, end);
    Breaks(cfg, Scenario(before, t, probes), end);
  }

  /** Main result: the limiter as it is keeps the bound in every window of every run if and only if ten minutes
      refill a whole bucket; without the collector it would always keep it. */
  lemma WindowBoundIff(cfg: Config)
    requires cfg.rps > 0.0
    ensures WindowBound(cfg, false)
    ensures WindowBound(cfg, true) <==> 1.0 <= 600.0 * cfg.rps && cfg.burst <= 600.0 * cfg.rps
  {
    WindowHolds(cfg, false);
    if Generous(cfg) {
      WindowHolds(cfg, true);
    } else if cfg.burst < 1.0 {
      TinyBurstGetsMore(cfg);
    } else {
      LargeBurstGetsMore(cfg);
    }
  }
}
