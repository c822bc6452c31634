/** The in-memory token-bucket limiter of irmik/middleware/ratelimit.go.

    Times are seconds and tokens are reals. The clock is read before the lock is taken; the model
    takes the time as a parameter of each call and the laws assume it is nondecreasing in lock order. */
module RateLimit {
  import opened Common

  /** The collector runs once the map holds more than this many clients. */
  const GC_THRESHOLD: nat := 10_000

  /** A bucket untouched for longer than this many seconds may be dropped. */
  const IDLE_SECONDS: real := 600.0

  datatype Config = Config(rps: real, burst: real)

  datatype Bucket = Bucket(tokens: real, last: real)

  type Buckets = map<string, Bucket>

  datatype Call = Call(key: string, now: real)

  function Min(a: real, b: real): real { if a < b then a else b }

  /** The defaulting done by RateLimit before the limiter is built. */
  function Normalise(cfg: Config): Config {
    var rps := if cfg.rps <= 0.0 then 50.0 else cfg.rps;
    var burst :=
      if cfg.burst <= 0.0 then
        if rps * 2.0 < 1.0 then 1.0 else rps * 2.0
      else cfg.burst;
    Config(rps, burst)
  }

  /** What LoginRateLimit passes on: five per minute, with the positive fields of an override taking over. */
  function LoginConfig(override: Option<Config>): Config {
    match override
    case None => Config(5.0 / 60.0, 5.0)
    case Some(o) => Config(if o.rps > 0.0 then o.rps else 5.0 / 60.0, if o.burst > 0.0 then o.burst else 5.0)
  }

  // ----- Specification of one call -----

  /** The tokens the rate gives between two instants. */
  function Earned(cfg: Config, s: real, t: real): real {
    (t - s) * cfg.rps
  }

  lemma EarnedNothing(cfg: Config, t: real)
    ensures Earned(cfg, t, t) == 0.0
  {
  }

  lemma EarnedSplits(cfg: Config, x: real, y: real, z: real)
    ensures Earned(cfg, x, z) == Earned(cfg, x, y) + Earned(cfg, y, z)
  {
    var a, b := y - x, z - y;
    assert (a + b) * cfg.rps == a * cfg.rps + b * cfg.rps;
    assert a + b == z - x;
  }

  lemma EarnedNonNegative(cfg: Config, s: real, t: real)
    requires cfg.rps >= 0.0 && s <= t
    ensures 0.0 <= Earned(cfg, s, t)
  {
    Product(t - s, cfg.rps);
  }

  lemma Product(a: real, b: real)
    requires a >= 0.0 && b >= 0.0
    ensures a * b >= 0.0
  {
  }

  /** What a bucket would hold at time t if it had no cap. */
  function Level(cfg: Config, b: Bucket, t: real): real {
    b.tokens + Earned(cfg, b.last, t)
  }

  /** One call on a known bucket: refill since the last call, cap, then spend one token if there is one. */
  function Spend(cfg: Config, b: Bucket, now: real): (Bucket, bool) {
    var level := Min(Level(cfg, b, now), cfg.burst);
    if level < 1.0 then (Bucket(level, now), false) else (Bucket(level - 1.0, now), true)
  }

  /** The buckets that survive a collection at time now. */
  function Collect(m: Buckets, now: real): Buckets {
    map k | k in m && now - m[k].last <= IDLE_SECONDS :: m[k]
  }

  /** One call. With gc false this is the reference limiter that never collects. */
  function AllowStep(cfg: Config, gc: bool, m: Buckets, c: Call): (Buckets, bool) {
    if c.key !in m then
      var m' := m[c.key := Bucket(cfg.burst - 1.0, c.now)];
      (if gc && |m'| > GC_THRESHOLD then Collect(m', c.now) else m', true)
    else
      var (b, ok) := Spend(cfg, m[c.key], c.now);
      (m[c.key := b], ok)
  }

  /** The answers of a whole run. */
  function Run(cfg: Config, gc: bool, m: Buckets, calls: seq<Call>): (answers: seq<bool>)
    ensures |answers| == |calls|
    decreases |calls|
  {
    if calls == [] then [] else
    var (m', ok) := AllowStep(cfg, gc, m, calls[0]);
    [ok] + Run(cfg, gc, m', calls[1..])
  }

  /** The buckets at the end of a run. */
  function Final(cfg: Config, gc: bool, m: Buckets, calls: seq<Call>): Buckets
    decreases |calls|
  {
    if calls == [] then m else
    Final(cfg, gc, AllowStep(cfg, gc, m, calls[0]).0, calls[1..])
  }

  ghost predicate Ordered(calls: seq<Call>) {
    forall i, j :: 0 <= i < j < |calls| ==> calls[i].now <= calls[j].now
  }

  ghost predicate NotBefore(t: real, calls: seq<Call>) {
    forall i :: 0 <= i < |calls| ==> t <= calls[i].now
  }

  lemma {:induction false} RunConcat(cfg: Config, gc: bool, m: Buckets, a: seq<Call>, b: seq<Call>)
    ensures Run(cfg, gc, m, a + b) == Run(cfg, gc, m, a) + Run(cfg, gc, Final(cfg, gc, m, a), b)
    ensures Final(cfg, gc, m, a + b) == Final(cfg, gc, Final(cfg, gc, m, a), b)
    decreases |a|
  {
    if a == [] {
      assert a + b == b;
    } else {
      assert (a + b)[1..] == a[1..] + b;
      RunConcat(cfg, gc, AllowStep(cfg, gc, m, a[0]).0, a[1..], b);
    }
  }

  // ----- The limiter as the program keeps it: a map of buckets updated in place -----

  class TokenBucket {
    var tokens: real
    var last: real

    constructor (tokens: real, last: real)
      ensures this.tokens == tokens && this.last == last
    {
      this.tokens := tokens;
      this.last := last;
    }

    /** The part of Allow that works on a bucket found in the map. */
    method Take(cfg: Config, now: real) returns (ok: bool)
      modifies this
      ensures (Bucket(tokens, last), ok) == Spend(cfg, Bucket(old(tokens), old(last)), now)
    {
      var elapsed := now - last;
      last := now;
      tokens := tokens + elapsed * cfg.rps;
      if tokens > cfg.burst {
        tokens := cfg.burst;
      }
      if tokens < 1.0 {
        return false;
      }
      tokens := tokens - 1.0;
      return true;
    }
  }

  class TokenLimiter {
    const cfg: Config
    var m: map<string, TokenBucket>

    /** No two clients share a bucket. */
    ghost predicate Valid()
      reads this
    {
      forall j, k :: j in m && k in m && m[j] == m[k] ==> j == k
    }

    ghost function State(): Buckets
      reads this, m.Values
    {
      map k | k in m :: Bucket(m[k].tokens, m[k].last)
    }

    constructor (rps: real, burst: real)
      ensures Valid() && cfg == Config(rps, burst) && State() == map[]
    {
      cfg := Config(rps, burst);
      m := map[];
    }

    method Allow(key: string, now: real) returns (ok: bool)
      requires Valid()
      modifies this, m.Values
      ensures Valid() && fresh(m.Values - old(m.Values))
      ensures (State(), ok) == AllowStep(cfg, true, old(State()), Call(key, now))
    {
      if key !in m {
        AddBucket(key, now);
        if |m| > GC_THRESHOLD {
          GcLocked(now);
        }
        return true;
      }
      ghost var b := m[key];
      ok := m[key].Take(cfg, now);
      assert forall k :: k in m && k != key ==> m[k] != b;
      assert State() == old(State())[key := Bucket(b.tokens, b.last)];
    }

    /** The part of Allow that stores a bucket for a new client. */
    method AddBucket(key: string, now: real)
      requires Valid() && key !in m
      modifies this
      ensures Valid() && fresh(m.Values - old(m.Values))
      ensures State() == old(State())[key := Bucket(cfg.burst - 1.0, now)] && |m| == |State()|
    {
      var b := new TokenBucket(cfg.burst - 1.0, now);
      m := m[key := b];
      SameSize(m, State());
    }

    method GcLocked(now: real)
      requires Valid()
      modifies this
      ensures Valid() && m.Values <= old(m.Values)
      ensures State() == Collect(old(State()), now)
    {
      var pending := m.Keys;
      while pending != {}
        invariant Valid() && pending <= m.Keys <= old(m).Keys
        invariant forall k :: k in m ==> m[k] == old(m)[k]
        invariant forall k :: k in old(m) && k !in pending ==> (k in m <==> now - old(m)[k].last <= IDLE_SECONDS)
        decreases |pending|
      {
        var k :| k in pending;
        if now - m[k].last > IDLE_SECONDS {
          m := m - {k};
        }
        pending := pending - {k};
      }
    }
  }

  lemma SameSize<A, B>(a: map<string, A>, b: map<string, B>)
    requires a.Keys == b.Keys
    ensures |a| == |b|
  {
  }

  // ----- One client alone -----

  /** One call as a single client sees it: absent means no bucket is stored. */
  function AllowOne(cfg: Config, b: Option<Bucket>, now: real): (Bucket, bool) {
    match b
    case None => (Bucket(cfg.burst - 1.0, now), true)
    case Some(b) => Spend(cfg, b, now)
  }

  function RunOne(cfg: Config, b: Option<Bucket>, times: seq<real>): (answers: seq<bool>)
    ensures |answers| == |times|
    decreases |times|
  {
    if times == [] then [] else
    var (b', ok) := AllowOne(cfg, b, times[0]);
    [ok] + RunOne(cfg, Some(b'), times[1..])
  }

  function FinalOne(cfg: Config, b: Option<Bucket>, times: seq<real>): Option<Bucket>
    decreases |times|
  {
    if times == [] then b else FinalOne(cfg, Some(AllowOne(cfg, b, times[0]).0), times[1..])
  }

  function Find(m: Buckets, k: string): Option<Bucket> {
    if k in m then Some(m[k]) else None
  }

  function CallsOf(k: string, times: seq<real>): (calls: seq<Call>)
    ensures |calls| == |times|
  {
    seq(|times|, i requires 0 <= i < |times| => Call(k, times[i]))
  }

  /** A run of calls by one client is decided by that client's bucket alone, collector or not. */
  lemma {:induction false} RunIsRunOne(cfg: Config, gc: bool, m: Buckets, k: string, times: seq<real>)
    ensures Run(cfg, gc, m, CallsOf(k, times)) == RunOne(cfg, Find(m, k), times)
    ensures Find(Final(cfg, gc, m, CallsOf(k, times)), k) == FinalOne(cfg, Find(m, k), times)
    decreases |times|
  {
    if times != [] {
      var calls := CallsOf(k, times);
      assert calls[1..] == CallsOf(k, times[1..]);
      RunIsRunOne(cfg, gc, AllowStep(cfg, gc, m, calls[0]).0, k, times[1..]);
    }
  }

  // ----- A bucket is a line: two buckets on the same line answer alike forever -----

  lemma SameLineLater(cfg: Config, b: Bucket, c: Bucket, s: real, t: real)
    requires Level(cfg, b, s) == Level(cfg, c, s)
    ensures Level(cfg, b, t) == Level(cfg, c, t)
  {
    EarnedSplits(cfg, b.last, s, t);
    EarnedSplits(cfg, c.last, s, t);
  }

  lemma {:induction false} SameLineRun(cfg: Config, b: Bucket, c: Bucket, s: real, times: seq<real>)
    requires Level(cfg, b, s) == Level(cfg, c, s)
    ensures RunOne(cfg, Some(b), times) == RunOne(cfg, Some(c), times)
  {
    if times != [] {
      SameLineLater(cfg, b, c, s, times[0]);
    }
  }

  // ----- When is dropping idle buckets invisible? -----

  /** On every run with a nondecreasing clock the collecting limiter answers like one that never collects. */
  ghost predicate CollectorInvisible(cfg: Config) {
    forall calls :: Ordered(calls) ==> Run(cfg, true, map[], calls) == Run(cfg, false, map[], calls)
  }

  /** A first request is worth allowing, and an empty bucket refills completely within the idle time. */
  predicate Transparent(cfg: Config) {
    1.0 <= cfg.burst <= IDLE_SECONDS * cfg.rps
  }

  /** g, the collecting limiter, holds a part of u; what it lacks would have refilled by time t. */
  ghost predicate Covers(cfg: Config, g: Buckets, u: Buckets, t: real) {
    && (forall k :: k in g ==> k in u && g[k] == u[k])
    && (forall k :: k in u ==> 0.0 <= u[k].tokens && u[k].last <= t)
    && (forall k :: k in u && k !in g ==> cfg.burst <= Level(cfg, u[k], t))
  }

  lemma LevelGrows(cfg: Config, b: Bucket, s: real, t: real)
    requires cfg.rps >= 0.0 && s <= t
    ensures Level(cfg, b, s) <= Level(cfg, b, t)
  {
    EarnedSplits(cfg, b.last, s, t);
    EarnedNonNegative(cfg, s, t);
  }

  lemma IdleIsFull(cfg: Config, b: Bucket, t: real)
    requires cfg.rps >= 0.0 && Transparent(cfg) && 0.0 <= b.tokens && t - b.last > IDLE_SECONDS
    ensures cfg.burst <= Level(cfg, b, t)
  {
    Product(t - b.last - IDLE_SECONDS, cfg.rps);
    assert (t - b.last) * cfg.rps == (t - b.last - IDLE_SECONDS) * cfg.rps + IDLE_SECONDS * cfg.rps;
  }

  lemma CoversLater(cfg: Config, g: Buckets, u: Buckets, s: real, t: real)
    requires cfg.rps >= 0.0 && s <= t && Covers(cfg, g, u, s)
    ensures Covers(cfg, g, u, t)
  {
    forall k | k in u && k !in g ensures cfg.burst <= Level(cfg, u[k], t) {
      LevelGrows(cfg, u[k], s, t);
    }
  }

  lemma CoversAfterCollect(cfg: Config, g: Buckets, u: Buckets, t: real)
    requires cfg.rps >= 0.0 && Transparent(cfg) && Covers(cfg, g, u, t)
    ensures Covers(cfg, Collect(g, t), u, t)
  {
    forall k | k in g && k !in Collect(g, t) ensures cfg.burst <= Level(cfg, u[k], t) {
      IdleIsFull(cfg, u[k], t);
    }
  }

  lemma SpendBounds(cfg: Config, b: Bucket, t: real)
    requires cfg.rps >= 0.0 && 1.0 <= cfg.burst && 0.0 <= b.tokens && b.last <= t
    ensures 0.0 <= Spend(cfg, b, t).0.tokens
  {
    EarnedNonNegative(cfg, b.last, t);
  }

  lemma CoversStep(cfg: Config, g: Buckets, u: Buckets, t: real, c: Call)
    requires cfg.rps >= 0.0 && Transparent(cfg) && Covers(cfg, g, u, t) && t <= c.now
    ensures AllowStep(cfg, true, g, c).1 == AllowStep(cfg, false, u, c).1
    ensures Covers(cfg, AllowStep(cfg, true, g, c).0, AllowStep(cfg, false, u, c).0, c.now)
  {
    CoversLater(cfg, g, u, t, c.now);
    if c.key in u {
      SpendBounds(cfg, u[c.key], c.now);
    }
    if c.key !in g {
      var full := Bucket(cfg.burst - 1.0, c.now);
      var g', u' := g[c.key := full], AllowStep(cfg, false, u, c).0;
      assert u'[c.key] == full;
      assert Covers(cfg, g', u', c.now);
      CoversAfterCollect(cfg, g', u', c.now);
    }
  }

  lemma {:induction false} CoversRun(cfg: Config, g: Buckets, u: Buckets, t: real, calls: seq<Call>)
    requires cfg.rps >= 0.0 && Transparent(cfg) && Covers(cfg, g, u, t)
    requires Ordered(calls) && NotBefore(t, calls)
    ensures Run(cfg, true, g, calls) == Run(cfg, false, u, calls)
    decreases |calls|
  {
    if calls != [] {
      var c := calls[0];
      CoversStep(cfg, g, u, t, c);
      CoversRun(cfg, AllowStep(cfg, true, g, c).0, AllowStep(cfg, false, u, c).0, c.now, calls[1..]);
    }
  }

  // The other direction needs a run that tells the two apart. One client drains its bucket, enough
  // other clients arrive to start the collector, and the first client comes back.

  lemma SpendAtOnce(cfg: Config, x: real, t: real)
    requires 1.0 <= x <= cfg.burst
    ensures Spend(cfg, Bucket(x, t), t) == (Bucket(x - 1.0, t), true)
  {
    EarnedNothing(cfg, t);
  }

  lemma Wait(cfg: Config, x: real, t: real, rise: real, w: real)
    requires cfg.rps > 0.0 && w == t + rise / cfg.rps
    ensures Level(cfg, Bucket(x, t), w) == x + rise
  {
    var d := rise / cfg.rps;
    assert d * cfg.rps == rise;
    assert w - t == d;
    assert Earned(cfg, t, w) == rise;
  }

  function Count(answers: seq<bool>): nat {
    if answers == [] then 0 else (if answers[0] then 1 else 0) + Count(answers[1..])
  }

  /** A client that keeps asking can bring its bucket to exactly zero, having spent all it had and earned. */
  lemma Drain(cfg: Config, x: real, t: real) returns (times: seq<real>, end: real)
    requires cfg.rps > 0.0 && cfg.burst >= 1.0 && 0.0 <= x <= cfg.burst
    ensures FinalOne(cfg, Some(Bucket(x, t)), times) == Some(Bucket(0.0, end))
    ensures Count(RunOne(cfg, Some(Bucket(x, t)), times)) as real == x + Earned(cfg, t, end)
    ensures t <= end && forall i :: 0 <= i < |times| ==> t <= times[i] <= end
    ensures forall i, j :: 0 <= i < j < |times| ==> times[i] <= times[j]
    decreases x.Floor
  {
    if x >= 1.0 {
      SpendAtOnce(cfg, x, t);
      var rest, e := Drain(cfg, x - 1.0, t);
      times, end := [t] + rest, e;
      assert times[1..] == rest;
      CountFirst(true, RunOne(cfg, Some(Bucket(x - 1.0, t)), rest));
    } else {
      end := t + (1.0 - x) / cfg.rps;
      Wait(cfg, x, t, 1.0 - x, end);
      times := [end];
      assert times[1..] == [];
      CountFirst(true, []);
    }
  }

  lemma CountFirst(ok: bool, rest: seq<bool>)
    ensures Count([ok] + rest) == (if ok then 1 else 0) + Count(rest)
  {
    assert ([ok] + rest)[1..] == rest;
  }

  /** Two buckets below the cap with different contents can be told apart. */
  lemma TellApart(cfg: Config, x: real, y: real, t: real) returns (times: seq<real>)
    requires cfg.rps > 0.0 && cfg.burst >= 1.0 && 0.0 <= x < y <= cfg.burst
    ensures RunOne(cfg, Some(Bucket(x, t)), times) != RunOne(cfg, Some(Bucket(y, t)), times)
    ensures forall i :: 0 <= i < |times| ==> t <= times[i]
    ensures forall i, j :: 0 <= i < j < |times| ==> times[i] <= times[j]
    decreases x.Floor
  {
    if x >= 1.0 {
      SpendAtOnce(cfg, x, t);
      SpendAtOnce(cfg, y, t);
      var rest := TellApart(cfg, x - 1.0, y - 1.0, t);
      times := [t] + rest;
      assert times[1..] == rest;
      assert RunOne(cfg, Some(Bucket(x, t)), times)[1..] == RunOne(cfg, Some(Bucket(x - 1.0, t)), rest);
      assert RunOne(cfg, Some(Bucket(y, t)), times)[1..] == RunOne(cfg, Some(Bucket(y - 1.0, t)), rest);
    } else {
      var rise := if y >= 1.0 then 0.0 else 1.0 - y;
      var w := t + rise / cfg.rps;
      Wait(cfg, x, t, rise, w);
      Wait(cfg, y, t, rise, w);
      times := [w];
      assert Level(cfg, Bucket(x, t), w) < 1.0 <= Level(cfg, Bucket(y, t), w);
      assert !RunOne(cfg, Some(Bucket(x, t)), times)[0];
      assert RunOne(cfg, Some(Bucket(y, t)), times)[0];
    }
  }

  /** Names of other clients: none is the empty name. */
  function Name(i: nat): (k: string)
    ensures |k| == i
  {
    seq(i, _ => 'x')
  }

  /** Clients first, first + 1, ..., one call each, all at time t. */
  function Crowd(first: nat, n: nat, t: real): (calls: seq<Call>)
    ensures |calls| == n
    decreases n
  {
    if n == 0 then [] else [Call(Name(first), t)] + Crowd(first + 1, n - 1, t)
  }

  lemma {:induction false} CrowdAt(first: nat, n: nat, t: real)
    ensures forall i :: 0 <= i < n ==> Crowd(first, n, t)[i].now == t
    decreases n
  {
    if n > 0 {
      CrowdAt(first + 1, n - 1, t);
    }
  }

  /** The map while the crowd arrives: the idle client plus clients 1 to n - 1. */
  ghost predicate Arrived(m: Buckets, b: Bucket, n: nat, t: real) {
    && "" in m && m[""] == b
    && |m| == n && (forall k :: k in m ==> |k| < n)
    && (forall k :: k in m && k != "" ==> m[k].last == t)
  }

  /** A client keeps its bucket however many clients arrive, without collection or while it is not idle for too long. */
  lemma {:induction false} CrowdLeavesBucket(cfg: Config, gc: bool, m: Buckets, first: nat, n: nat, t: real)
    requires first >= 1 && "" in m && (gc ==> t - m[""].last <= IDLE_SECONDS)
    ensures Find(Final(cfg, gc, m, Crowd(first, n, t)), "") == Find(m, "")
    decreases n
  {
    if n > 0 {
      var calls := Crowd(first, n, t);
      assert calls[1..] == Crowd(first + 1, n - 1, t);
      CrowdLeavesBucket(cfg, gc, AllowStep(cfg, gc, m, calls[0]).0, first + 1, n - 1, t);
    }
  }

  /** With collection the client idle for too long is gone when the map first exceeds the threshold. */
  lemma {:induction false} CrowdDropsBucket(cfg: Config, m: Buckets, b: Bucket, first: nat, t: real)
    requires 1 <= first <= GC_THRESHOLD && Arrived(m, b, first, t) && t - b.last > IDLE_SECONDS
    ensures Find(Final(cfg, true, m, Crowd(first, GC_THRESHOLD + 1 - first, t)), "") == None
    decreases GC_THRESHOLD - first
  {
    var calls := Crowd(first, GC_THRESHOLD + 1 - first, t);
    var added := m[Name(first) := Bucket(cfg.burst - 1.0, t)];
    assert Name(first) !in m;
    assert calls[1..] == Crowd(first + 1, GC_THRESHOLD - first, t);
    if first < GC_THRESHOLD {
      assert Arrived(added, b, first + 1, t);
      CrowdDropsBucket(cfg, added, b, first + 1, t);
    } else {
      assert Final(cfg, true, m, calls) == Collect(added, t);
    }
  }

  /** The whole run: the client's own calls, the crowd at time t, the client's probes. */
  function Scenario(before: seq<real>, t: real, probes: seq<real>): seq<Call> {
    CallsOf("", before) + Crowd(1, GC_THRESHOLD, t) + CallsOf("", probes)
  }

  lemma ScenarioOrdered(before: seq<real>, t: real, probes: seq<real>)
    requires forall i, j :: 0 <= i < j < |before| ==> before[i] <= before[j]
    requires forall i :: 0 <= i < |before| ==> before[i] <= t
    requires forall i, j :: 0 <= i < j < |probes| ==> probes[i] <= probes[j]
    requires forall i :: 0 <= i < |probes| ==> t <= probes[i]
    ensures Ordered(Scenario(before, t, probes))
  {
    CrowdAt(1, GC_THRESHOLD, t);
  }

  /** The probes meet the client's bucket, or none if it was idle for too long and there is a collector. */
  lemma ScenarioEnd(cfg: Config, gc: bool, before: seq<real>, b: Bucket, t: real, probes: seq<real>)
    requires before != [] && FinalOne(cfg, None, before) == Some(b)
    ensures Run(cfg, gc, map[], Scenario(before, t, probes))[|before| + GC_THRESHOLD..]
         == RunOne(cfg, if gc && t - b.last > IDLE_SECONDS then None else Some(b), probes)
  {
    var own, crowd, back := CallsOf("", before), Crowd(1, GC_THRESHOLD, t), CallsOf("", probes);
    var m := map["" := b];
    OwnCallsOnly(cfg, gc, before, b);
    if gc && t - b.last > IDLE_SECONDS {
      CrowdDropsBucket(cfg, m, b, 1, t);
    } else {
      CrowdLeavesBucket(cfg, gc, m, 1, GC_THRESHOLD, t);
    }
    RunConcat(cfg, gc, map[], own, crowd);
    RunConcat(cfg, gc, map[], own + crowd, back);
    RunIsRunOne(cfg, gc, Final(cfg, gc, map[], own + crowd), "", probes);
  }

  lemma ScenarioTells(cfg: Config, before: seq<real>, b: Bucket, t: real, probes: seq<real>)
    requires before != [] && FinalOne(cfg, None, before) == Some(b) && t - b.last > IDLE_SECONDS
    requires Ordered(Scenario(before, t, probes))
    requires RunOne(cfg, Some(b), probes) != RunOne(cfg, None, probes)
    ensures !CollectorInvisible(cfg)
  {
    ScenarioEnd(cfg, true, before, b, t, probes);
    ScenarioEnd(cfg, false, before, b, t, probes);
    var calls := Scenario(before, t, probes);
    assert Run(cfg, true, map[], calls) != Run(cfg, false, map[], calls);
  }

  lemma OwnCallsOnly(cfg: Config, gc: bool, times: seq<real>, b: Bucket)
    requires times != [] && FinalOne(cfg, None, times) == Some(b)
    ensures Final(cfg, gc, map[], CallsOf("", times)) == map["" := b]
  {
    RunIsRunOne(cfg, gc, map[], "", times);
    OnlyOneKey(cfg, gc, map[], times);
  }

  lemma {:induction false} OnlyOneKey(cfg: Config, gc: bool, m: Buckets, times: seq<real>)
    requires m.Keys <= {""}
    ensures Final(cfg, gc, m, CallsOf("", times)).Keys <= {""}
    decreases |times|
  {
    if times != [] {
      var calls := CallsOf("", times);
      assert calls[1..] == CallsOf("", times[1..]);
      OnlyOneKey(cfg, gc, AllowStep(cfg, gc, m, calls[0]).0, times[1..]);
    }
  }

  lemma TinyBurstIsVisible(cfg: Config)
    requires cfg.rps > 0.0 && cfg.burst < 1.0
    ensures !CollectorInvisible(cfg)
  {
    var b := Bucket(cfg.burst - 1.0, 0.0);
    var before, t := [0.0], IDLE_SECONDS + 1.0;
    assert before[1..] == [];
    ScenarioOrdered(before, t, [t]);
    assert !RunOne(cfg, Some(b), [t])[0] && RunOne(cfg, None, [t])[0];
    ScenarioTells(cfg, before, b, t, [t]);
  }

  /** A moment when the idle client may already be dropped but is not full again. */
  lemma IdleButNotFull(cfg: Config, end: real) returns (t: real)
    requires cfg.rps > 0.0 && cfg.burst > IDLE_SECONDS * cfg.rps
    ensures t - end > IDLE_SECONDS && 0.0 <= Earned(cfg, end, t) < cfg.burst
  {
    var full := cfg.burst / cfg.rps;
    assert full * cfg.rps == cfg.burst;
    assert (IDLE_SECONDS - full) * cfg.rps < 0.0;
    assert IDLE_SECONDS < full;
    var wait := (IDLE_SECONDS + full) / 2.0;
    assert wait * cfg.rps == (IDLE_SECONDS * cfg.rps + full * cfg.rps) / 2.0;
    t := end + wait;
    assert t - end == wait;
  }

  lemma LargeBurstIsVisible(cfg: Config)
    requires cfg.rps > 0.0 && cfg.burst >= 1.0 && cfg.burst > IDLE_SECONDS * cfg.rps
    ensures !CollectorInvisible(cfg)
  {
    var rest, end := Drain(cfg, cfg.burst - 1.0, 0.0);
    var before := [0.0] + rest;
    assert before[1..] == rest;
    var t := IdleButNotFull(cfg, end);
    var probes := ProbesTell(cfg, end, t);
    ScenarioOrdered(before, t, probes);
    ScenarioTells(cfg, before, Bucket(0.0, end), t, probes);
  }

  lemma ProbesTell(cfg: Config, end: real, t: real) returns (probes: seq<real>)
    requires cfg.rps > 0.0 && cfg.burst >= 1.0 && 0.0 <= Earned(cfg, end, t) < cfg.burst
    ensures RunOne(cfg, Some(Bucket(0.0, end)), probes) != RunOne(cfg, None, probes)
    ensures forall i :: 0 <= i < |probes| ==> t <= probes[i]
    ensures forall i, j :: 0 <= i < j < |probes| ==> probes[i] <= probes[j]
  {
    var x := Earned(cfg, end, t);
    probes := TellApart(cfg, x, cfg.burst, t);
    EarnedNothing(cfg, t);
    SameLineRun(cfg, Bucket(0.0, end), Bucket(x, t), t, probes);
    FreshIsFull(cfg, t, probes);
  }

  /** An absent client is treated like one whose bucket is full. */
  lemma {:induction false} FreshIsFull(cfg: Config, t: real, times: seq<real>)
    requires cfg.rps >= 0.0 && cfg.burst >= 1.0 && forall i :: 0 <= i < |times| ==> t <= times[i]
    ensures RunOne(cfg, None, times) == RunOne(cfg, Some(Bucket(cfg.burst, t)), times)
  {
    if times != [] {
      EarnedNonNegative(cfg, t, times[0]);
      var b := Bucket(cfg.burst - 1.0, times[0]);
      assert Spend(cfg, Bucket(cfg.burst, t), times[0]) == (b, true);
      assert RunOne(cfg, None, times) == [true] + RunOne(cfg, Some(b), times[1..]);
    }
  }

  /** Main result: dropping idle buckets is invisible exactly when the burst is at least one token
      and no more than what refills in the ten minutes of idleness. */
  lemma CollectorInvisibleIff(cfg: Config)
    requires cfg.rps > 0.0
    ensures CollectorInvisible(cfg) <==> 1.0 <= cfg.burst <= 600.0 * cfg.rps
  {
    if Transparent(cfg) {
      forall calls: seq<Call> | Ordered(calls) ensures Run(cfg, true, map[], calls) == Run(cfg, false, map[], calls) {
        if calls != [] {
          CoversRun(cfg, map[], map[], calls[0].now, calls);
        }
      }
    } else if cfg.burst < 1.0 {
      TinyBurstIsVisible(cfg);
    } else {
      LargeBurstIsVisible(cfg);
    }
  }

  /** What that means for a configuration that leaves Burst unset: only rates below one token in ten
      minutes let the collector show. */
  lemma DefaultBurstIsTransparent(cfg: Config)
    requires cfg.burst <= 0.0
    ensures CollectorInvisible(Normalise(cfg)) <==> (cfg.rps <= 0.0 || 1.0 <= IDLE_SECONDS * cfg.rps)
  {
    CollectorInvisibleIff(Normalise(cfg));
  }

  /** The login limiter is never affected as it comes; a lowered rate alone makes it so below five tokens in ten
      minutes, although the burst was left at its default. */
  lemma LoginIsTransparent(override: Option<Config>)
    ensures override.None? ==> CollectorInvisible(Normalise(LoginConfig(override)))
    ensures override.Some? && override.value.burst <= 0.0 ==>
      (CollectorInvisible(Normalise(LoginConfig(override)))
       <==> override.value.rps <= 0.0 || 5.0 <= IDLE_SECONDS * override.value.rps)
  {
    CollectorInvisibleIff(Normalise(LoginConfig(override)));
  }

  // ----- How many calls a new client may make at once -----

  function AtOnce(t: real, n: nat): (times: seq<real>)
    ensures |times| == n
  {
    seq(n, _ => t)
  }

  lemma {:induction false} BucketAtOnce(cfg: Config, x: real, t: real, n: nat, i: nat)
    requires i < n && x <= cfg.burst
    ensures RunOne(cfg, Some(Bucket(x, t)), AtOnce(t, n))[i] <==> x - i as real >= 1.0
    decreases n
  {
    EarnedNothing(cfg, t);
    assert AtOnce(t, n)[1..] == AtOnce(t, n - 1);
    if i > 0 {
      BucketAtOnce(cfg, if x < 1.0 then x else x - 1.0, t, n - 1, i - 1);
    }
  }

  /** Main result: of any number of calls a new client makes at one instant, the first is always allowed, and then exactly
      as many as make up the burst. */
  lemma BurstAtOnce(cfg: Config, gc: bool, k: string, t: real, n: nat, i: nat)
    requires i < n
    ensures Run(cfg, gc, map[], CallsOf(k, AtOnce(t, n)))[i] <==> i == 0 || (i + 1) as real <= cfg.burst
  {
    RunIsRunOne(cfg, gc, map[], k, AtOnce(t, n));
    assert AtOnce(t, n)[1..] == AtOnce(t, n - 1);
    if i > 0 {
      BucketAtOnce(cfg, cfg.burst - 1.0, t, n - 1, i - 1);
    }
  }

  /** Settings that are positive are taken as they are; a rate left out is fifty a second, a burst left out twice the rate
      and at least one. */
  lemma NormaliseKeeps(cfg: Config)
    ensures var n := Normalise(cfg);
      && (if cfg.rps > 0.0 then n.rps == cfg.rps else n.rps == 50.0)
      && (if cfg.burst > 0.0 then n.burst == cfg.burst
          else n.burst >= 1.0 && n.burst >= 2.0 * n.rps && (n.burst == 1.0 || n.burst == 2.0 * n.rps))
  {
  }

  /** With nothing set, a new client may make a hundred calls at once and no more. */
  lemma DefaultAllowsHundred(gc: bool, k: string, t: real, n: nat, i: nat)
    requires i < n
    ensures Run(Normalise(Config(0.0, 0.0)), gc, map[], CallsOf(k, AtOnce(t, n)))[i] <==> i < 100
  {
    BurstAtOnce(Normalise(Config(0.0, 0.0)), gc, k, t, n, i);
  }

  /** The login limiter as it comes lets a new client try five times at once and no more; with a positive burst set, as
      often as that. */
  lemma LoginAllowsFive(o: Option<Config>, gc: bool, k: string, t: real, n: nat, i: nat)
    requires i < n
    ensures var burst := if o.Some? && o.value.burst > 0.0 then o.value.burst else 5.0;
      Run(Normalise(LoginConfig(o)), gc, map[], CallsOf(k, AtOnce(t, n)))[i] <==> i == 0 || (i + 1) as real <= burst
    ensures Normalise(LoginConfig(o)).rps * 60.0 == if o.Some? && o.value.rps > 0.0 then o.value.rps * 60.0 else 5.0
  {
    BurstAtOnce(Normalise(LoginConfig(o)), gc, k, t, n, i);
  }
}
