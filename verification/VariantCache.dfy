/** The bounded first-in first-out cache of image variants, irmik/imagex/pipeline.go. */
module VariantCache {
  import opened Common
  import opened Decimals
  import Strings

  const MEM_CACHE_LIMIT: nat := 64

  /** The two fields of the cache that live in memory. */
  datatype Mem = Mem(bodies: map<string, string>, ord: seq<string>)

  ghost predicate Distinct(s: seq<string>) {
    forall i, j :: 0 <= i < j < |s| ==> s[i] != s[j]
  }

  ghost predicate Valid(m: Mem) {
    && Distinct(m.ord) && |m.ord| <= MEM_CACHE_LIMIT
    && forall k :: k in m.bodies <==> k in m.ord
  }

  function Remember(m: Mem, key: string, body: string): Mem {
    if key in m.bodies then Mem(m.bodies[key := body], m.ord)
    else
      var room := if |m.ord| >= MEM_CACHE_LIMIT then Mem(m.bodies - {m.ord[0]}, m.ord[1..]) else m;
      Mem(room.bodies[key := body], room.ord + [key])
  }

  /** What get answers when nobody is between its sections, and what it leaves in memory. */
  function Answer(onDisk: bool, m: Mem, disk: map<string, string>, key: string): Option<string> {
    if key in m.bodies then Some(m.bodies[key]) else if onDisk && key in disk then Some(disk[key]) else None
  }

  function AfterGet(onDisk: bool, m: Mem, disk: map<string, string>, key: string): Mem {
    if key !in m.bodies && onDisk && key in disk then Remember(m, key, disk[key]) else m
  }

  class Cache {
    const onDisk: bool
    var mem: map<string, string>
    var ord: seq<string>
    /** The directory of stored variants, by key. */
    var disk: map<string, string>

    function Value(): Mem
      reads this
    {
      Mem(mem, ord)
    }

    constructor (onDisk: bool, disk: map<string, string>)
      ensures Value() == Mem(map[], []) && this.onDisk == onDisk && this.disk == disk
    {
      this.onDisk, this.disk := onDisk, disk;
      mem, ord := map[], [];
    }

    /** With nobody between the look into memory, the reading of the file and the remembering. */
    method Get(key: string) returns (body: Option<string>)
      modifies `mem, `ord
      ensures body == Answer(onDisk, old(Value()), disk, key) && Value() == AfterGet(onDisk, old(Value()), disk, key)
    {
      body := Look(key);
      if body.Some? || !onDisk {
        return body;
      }
      body := ReadFile(key);
      if body.Some? {
        RememberLocked(key, body.value);
      }
    }

    /** The first locked section of get. */
    method Look(key: string) returns (body: Option<string>)
      ensures body == if key in mem then Some(mem[key]) else None
    {
      return if key in mem then Some(mem[key]) else None;
    }

    method ReadFile(key: string) returns (body: Option<string>)
      ensures body == if key in disk then Some(disk[key]) else None
    {
      return if key in disk then Some(disk[key]) else None;
    }

    /** With nobody between the remembering and the writing of the file. */
    method Set(key: string, body: string)
      modifies this
      ensures Value() == Remember(old(Value()), key, body)
      ensures disk == if onDisk then old(disk)[key := body] else old(disk)
    {
      RememberLocked(key, body);
      if onDisk {
        WriteFile(key, body);
      }
    }

    method WriteFile(key: string, body: string)
      modifies `disk
      ensures disk == old(disk)[key := body]
    {
      disk := disk[key := body];
    }

    method RememberLocked(key: string, body: string)
      modifies `mem, `ord
      ensures Value() == Remember(old(Value()), key, body)
    {
      if key !in mem && |ord| >= MEM_CACHE_LIMIT {
        var oldest := ord[0];
        ord := ord[1..];
        mem := mem - {oldest};
        assert oldest != key || key !in mem;
      }
      if key !in mem {
        ord := ord + [key];
      }
      mem := mem[key := body];
    }
  }

  lemma RememberKeepsValid(m: Mem, key: string, body: string)
    requires Valid(m)
    ensures Valid(Remember(m, key, body))
  {
  }

  function RememberAll(m: Mem, puts: seq<(string, string)>): Mem
    decreases |puts|
  {
    if puts == [] then m else
    Remember(RememberAll(m, puts[..|puts| - 1]), puts[|puts| - 1].0, puts[|puts| - 1].1)
  }

  /** How many of the puts were of keys not in memory at the time. */
  function Insertions(m: Mem, puts: seq<(string, string)>): nat
    decreases |puts|
  {
    if puts == [] then 0 else
    Insertions(m, puts[..|puts| - 1])
    + (if puts[|puts| - 1].0 in RememberAll(m, puts[..|puts| - 1]).bodies then 0 else 1)
  }

  lemma {:induction false} AlwaysValid(m: Mem, puts: seq<(string, string)>)
    requires Valid(m)
    ensures Valid(RememberAll(m, puts))
    decreases |puts|
  {
    if puts != [] {
      var n := |puts| - 1;
      AlwaysValid(m, puts[..n]);
      RememberKeepsValid(RememberAll(m, puts[..n]), puts[n].0, puts[n].1);
    }
  }

  /** Of total keys ever queued, the one at place still stands, with its body, exactly if it is among the last
      sixty-four. */
  ghost predicate Stands(m: Mem, key: string, body: string, place: nat, total: nat) {
    var left := if total <= MEM_CACHE_LIMIT then 0 else total - MEM_CACHE_LIMIT;
    && |m.ord| == total - left
    && (key in m.bodies <==> left <= place)
    && (key in m.bodies ==> place - left < |m.ord| && m.ord[place - left] == key && m.bodies[key] == body)
  }

  lemma StandsStep(m: Mem, key: string, body: string, place: nat, total: nat, other: string, b: string)
    requires Valid(m) && Stands(m, key, body, place, total) && key != other
    ensures Stands(Remember(m, other, b), key, body, place, total + if other in m.bodies then 0 else 1)
  {
  }

  lemma {:induction false} StandsAll(m: Mem, key: string, i: nat, puts: seq<(string, string)>)
    requires Valid(m) && i < |m.ord| && m.ord[i] == key && forall j :: 0 <= j < |puts| ==> puts[j].0 != key
    ensures Stands(RememberAll(m, puts), key, m.bodies[key], i, |m.ord| + Insertions(m, puts))
    decreases |puts|
  {
    if puts != [] {
      var k := |puts| - 1;
      StandsAll(m, key, i, puts[..k]);
      AlwaysValid(m, puts[..k]);
      StandsStep(RememberAll(m, puts[..k]), key, m.bodies[key], i, |m.ord| + Insertions(m, puts[..k]),
                 puts[k].0, puts[k].1);
    }
  }

  function LastPut(puts: seq<(string, string)>, key: string): Option<string>
    decreases |puts|
  {
    if puts == [] then None
    else if puts[|puts| - 1].0 == key then Some(puts[|puts| - 1].1)
    else LastPut(puts[..|puts| - 1], key)
  }

  /** What is found under a key is the body last set for it. */
  lemma {:induction false} HoldsLastPut(puts: seq<(string, string)>, key: string)
    ensures var m := RememberAll(Mem(map[], []), puts);
      key in m.bodies ==> LastPut(puts, key) == Some(m.bodies[key])
    decreases |puts|
  {
    if puts != [] {
      HoldsLastPut(puts[..|puts| - 1], key);
    }
  }

  /** Main result: a key just inserted survives exactly while at most 63 other keys have been inserted for the
      first time after it, and then holds the body it was given. */
  lemma SurvivesSixtyThree(m: Mem, key: string, body: string, puts: seq<(string, string)>)
    requires Valid(m) && key !in m.bodies && forall j :: 0 <= j < |puts| ==> puts[j].0 != key
    ensures var start := Remember(m, key, body); var end := RememberAll(start, puts);
      && (key in end.bodies <==> Insertions(start, puts) <= 63)
      && (key in end.bodies ==> end.bodies[key] == body)
      && Answer(false, end, map[], key) == if Insertions(start, puts) <= 63 then Some(body) else None
  {
    var start := Remember(m, key, body);
    RememberKeepsValid(m, key, body);
    AlwaysValid(start, puts);
    StandsAll(start, key, |start.ord| - 1, puts);
  }

  // ----- Gets and sets one after the other -----

  datatype Op = Get(key: string) | Set(key: string, body: string)

  datatype State = State(mem: Mem, disk: map<string, string>)

  function Do(onDisk: bool, s: State, op: Op): State {
    match op
    case Get(key) => s.(mem := AfterGet(onDisk, s.mem, s.disk, key))
    case Set(key, body) =>
      State(Remember(s.mem, key, body), if onDisk then s.disk[key := body] else s.disk)
  }

  function DoAll(onDisk: bool, disk: map<string, string>, ops: seq<Op>): State
    decreases |ops|
  {
    if ops == [] then State(Mem(map[], []), disk) else Do(onDisk, DoAll(onDisk, disk, ops[..|ops| - 1]), ops[|ops| - 1])
  }

  /** The body last set for the key, or what the directory held before the program started. */
  function LastSet(disk: map<string, string>, ops: seq<Op>, key: string): Option<string>
    decreases |ops|
  {
    if ops == [] then (if key in disk then Some(disk[key]) else None) else
    var op := ops[|ops| - 1];
    if op.Set? && op.key == key then Some(op.body) else LastSet(disk, ops[..|ops| - 1], key)
  }

  ghost predicate Mirrors(s: State) {
    forall k :: k in s.mem.bodies ==> k in s.disk && s.disk[k] == s.mem.bodies[k]
  }

  lemma {:induction false} MemoryMirrorsDisk(disk: map<string, string>, ops: seq<Op>, key: string)
    ensures var s := DoAll(true, disk, ops);
      Mirrors(s) && LastSet(disk, ops, key) == if key in s.disk then Some(s.disk[key]) else None
    decreases |ops|
  {
    if ops != [] {
      MemoryMirrorsDisk(disk, ops[..|ops| - 1], key);
    }
  }

  lemma {:induction false} MemoryHoldsLastSet(disk: map<string, string>, ops: seq<Op>, key: string)
    ensures var s := DoAll(false, disk, ops);
      key in s.mem.bodies ==> LastSet(map[], ops, key) == Some(s.mem.bodies[key])
    decreases |ops|
  {
    if ops != [] {
      MemoryHoldsLastSet(disk, ops[..|ops| - 1], key);
    }
  }

  /** Main result, for gets and sets that do not overlap: with a directory, get answers the body last set for the key,
      evicted or not, else what the directory held from before. Without one it answers the body last set, or
      nothing. */
  lemma GetAnswersLastSet(disk: map<string, string>, ops: seq<Op>, key: string)
    ensures var s := DoAll(true, disk, ops); Answer(true, s.mem, s.disk, key) == LastSet(disk, ops, key)
    ensures var s := DoAll(false, disk, ops); var a := Answer(false, s.mem, s.disk, key);
      a == None || a == LastSet(map[], ops, key)
  {
    MemoryMirrorsDisk(disk, ops, key);
    MemoryHoldsLastSet(disk, ops, key);
  }

  // ----- The key of a variant -----

  function Itoa(n: int): string { if n < 0 then "-" + Decimal(-n) else Decimal(n) }

  function VariantKey(src: string, width: int, format: string, quality: int): string {
    src + "|" + Itoa(width) + "|" + format + "|" + Itoa(quality)
  }

  lemma ItoaInjective(a: int, b: int)
    ensures '|' !in Itoa(a) && (Itoa(a) == Itoa(b) ==> a == b)
  {
    var x, y := if a < 0 then -a else a, if b < 0 then -b else b;
    DecimalIsNumber(x);
    DecimalIsNumber(y);
    DigitsAreNot(Decimal(x), '|');
    if Itoa(a) == Itoa(b) {
      assert Itoa(a)[0] == '-' <==> a < 0;
      assert Itoa(b)[0] == '-' <==> b < 0;
      assert a < 0 ==> Itoa(a)[1..] == Decimal(x);
      assert b < 0 ==> Itoa(b)[1..] == Decimal(y);
    }
  }

  /** Different variants have different keys, whatever the source path holds, as long as formats hold no bar. */
  lemma VariantKeyInjective(s: string, w: int, f: string, q: int, s': string, w': int, f': string, q': int)
    requires '|' !in f && '|' !in f' && VariantKey(s, w, f, q) == VariantKey(s', w', f', q')
    ensures s == s' && w == w' && f == f' && q == q'
  {
    ItoaInjective(q, q');
    ItoaInjective(q', q);
    ItoaInjective(w, w');
    ItoaInjective(w', w);
    Strings.LastBar(s + "|" + Itoa(w) + "|" + f, Itoa(q), s' + "|" + Itoa(w') + "|" + f', Itoa(q'));
    Strings.LastBar(s + "|" + Itoa(w), f, s' + "|" + Itoa(w'), f');
    Strings.LastBar(s, Itoa(w), s', Itoa(w'));
  }
}
