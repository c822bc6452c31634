/** Style sheets of an island's entry, irmik/island/manifest.go. Imports are followed without a record of the
    chunks already visited, so the walk ends only where no import cycle can be reached; the path from the entry
    is the measure that shows it. */
module EntryAssets {
  import opened Common

  datatype Chunk = Chunk(file: string, src: string, name: string, css: seq<string>, imports: seq<string>)

  type Manifest = map<string, Chunk>

  // ----- Import paths -----

  predicate Imports(m: Manifest, a: string, b: string) {
    a in m && b in m && b in m[a].imports
  }

  predicate IsPath(m: Manifest, p: seq<string>) {
    && (forall i :: 0 <= i < |p| ==> p[i] in m)
    && (forall i, j :: 0 <= i && j == i + 1 < |p| ==> Imports(m, p[i], p[j]))
  }

  predicate PathFrom(m: Manifest, start: string, p: seq<string>) {
    p != [] && p[0] == start && IsPath(m, p)
  }

  predicate Repeats(p: seq<string>) {
    exists i, j :: 0 <= i < j < |p| && p[i] == p[j]
  }

  /** No import cycle can be reached from start. */
  ghost predicate Acyclic(m: Manifest, start: string) {
    forall p :: PathFrom(m, start, p) ==> !Repeats(p)
  }

  lemma {:induction false} DistinctFit(p: seq<string>, keys: set<string>)
    requires !Repeats(p) && forall k :: k in p ==> k in keys
    ensures |p| <= |keys|
    decreases |p|
  {
    if p != [] {
      var n := |p| - 1;
      var front := p[..n];
      assert p[n] !in front;
      DistinctFit(front, keys - {p[n]});
    }
  }

  /** Without a cycle no chain of calls is longer than the manifest. */
  lemma ChainsAreShort(m: Manifest, start: string, p: seq<string>)
    requires Acyclic(m, start) && PathFrom(m, start, p)
    ensures |p| <= |m|
  {
    DistinctFit(p, m.Keys);
  }

  /** A path through a repeated chunk can go round once more. */
  lemma {:induction false} GoRound(m: Manifest, start: string, p: seq<string>, i: nat, j: nat, n: nat) returns (q: seq<string>)
    requires PathFrom(m, start, p) && i < j < |p| && p[i] == p[j]
    ensures PathFrom(m, start, q) && |q| > n && Repeats(q) && q[|q| - 1] == p[i]
    decreases n
  {
    if n == 0 {
      q := p[..j + 1];
      assert q[i] == q[j];
    } else {
      var r := GoRound(m, start, p, i, j, n - 1);
      q := r + p[i + 1..j + 1];
      forall a, b | 0 <= a && b == a + 1 < |q| ensures Imports(m, q[a], q[b]) {
        if a == |r| - 1 {
          assert Imports(m, p[i], p[i + 1]);
        } else if a >= |r| {
          var k := a - |r| + i + 1;
          assert Imports(m, p[k], p[k + 1]);
        }
      }
      var x, y :| 0 <= x < y < |r| && r[x] == r[y];
      assert q[x] == q[y];
    }
  }

  ghost predicate ChainsBounded(m: Manifest, start: string, n: nat) {
    forall p :: PathFrom(m, start, p) ==> |p| <= n
  }

  /** Main result: the recursion is bounded exactly when no import cycle can be reached, and then by the number
      of chunks. */
  lemma BoundedIffAcyclic(m: Manifest, start: string)
    ensures Acyclic(m, start) <==> exists n :: ChainsBounded(m, start, n)
    ensures Acyclic(m, start) ==> ChainsBounded(m, start, |m|)
  {
    if Acyclic(m, start) {
      forall p | PathFrom(m, start, p) ensures |p| <= |m| {
        ChainsAreShort(m, start, p);
      }
      assert ChainsBounded(m, start, |m|);
    } else {
      var p :| PathFrom(m, start, p) && Repeats(p);
      var i, j :| 0 <= i < j < |p| && p[i] == p[j];
      forall n: nat ensures !ChainsBounded(m, start, n) {
        var q := GoRound(m, start, p, i, j, n);
      }
    }
  }

  /** One chunk that imports itself is enough. */
  lemma SelfImportIsUnbounded(key: string, c: Chunk, n: nat)
    requires key in c.imports
    ensures !Acyclic(map[key := c], key) && !ChainsBounded(map[key := c], key, n)
  {
    var m := map[key := c];
    assert Imports(m, key, key);
    assert PathFrom(m, key, [key, key]) && [key, key][0] == [key, key][1];
    BoundedIffAcyclic(m, key);
  }

  /** Following imports from key, no chain has more than n chunks. */
  predicate Ends(m: Manifest, key: string, n: nat)
    requires key in m
    decreases n
  {
    n > 0 && forall k :: k in m[key].imports && k in m ==> Ends(m, k, n - 1)
  }

  lemma {:induction false} EndsBelow(m: Manifest, trail: seq<string>, n: nat)
    requires trail != [] && Acyclic(m, trail[0]) && PathFrom(m, trail[0], trail) && |trail| + n > |m|
    ensures Ends(m, trail[|trail| - 1], n)
    decreases n
  {
    var key := trail[|trail| - 1];
    ChainsAreShort(m, trail[0], trail);
    forall k | k in m[key].imports && k in m ensures Ends(m, k, n - 1) {
      assert Imports(m, key, k);
      EndsBelow(m, trail + [k], n - 1);
    }
  }

  // ----- What is collected -----

  /** The hrefs met by a walk of at most n levels, repetitions and empty ones included: a chunk's own before those
      of its imports, and these from left to right. */
  function Gather(m: Manifest, key: string, n: nat): seq<string>
    decreases n, 1
  {
    if n == 0 || key !in m then [] else GatherFrom(m, m[key], |m[key].imports|, n - 1)
  }

  /** A chunk's own hrefs and those met through its first k imports. */
  function GatherFrom(m: Manifest, c: Chunk, k: nat, n: nat): seq<string>
    requires k <= |c.imports|
    decreases n, 2, k
  {
    if k == 0 then c.css else GatherFrom(m, c, k - 1, n) + Gather(m, c.imports[k - 1], n)
  }

  function Add(css: seq<string>, href: string): seq<string> {
    if href == "" || href in css then css else css + [href]
  }

  function AddAll(css: seq<string>, hrefs: seq<string>): seq<string>
    decreases |hrefs|
  {
    if hrefs == [] then css else Add(AddAll(css, hrefs[..|hrefs| - 1]), hrefs[|hrefs| - 1])
  }

  lemma {:induction false} AddAllJoins(css: seq<string>, a: seq<string>, b: seq<string>)
    ensures AddAll(css, a + b) == AddAll(AddAll(css, a), b)
    decreases |b|
  {
    if b == [] {
      assert a + b == a;
    } else {
      var n := |b| - 1;
      AddAllJoins(css, a, b[..n]);
      assert (a + b)[..|a + b| - 1] == a + b[..n];
    }
  }

  /** The style sheets of an entry. */
  function StyleSheets(m: Manifest, entry: string): seq<string> {
    AddAll([], Gather(m, entry, |m|))
  }

  // ----- The walk -----

  class Collector {
    const m: Manifest
    var css: seq<string>
    var seen: set<string>

    ghost predicate Valid()
      reads this
    {
      seen == set href | href in css
    }

    constructor (m: Manifest)
      ensures this.m == m && Valid() && css == []
    {
      this.m := m;
      css, seen := [], {};
    }

    method Link(hrefs: seq<string>)
      requires Valid()
      modifies this
      ensures Valid() && css == AddAll(old(css), hrefs)
    {
      for k := 0 to |hrefs|
        invariant Valid() && css == AddAll(old(css), hrefs[..k])
      {
        var href := hrefs[k];
        assert hrefs[..k + 1][..k] == hrefs[..k];
        if href == "" {
          continue;
        }
        if href in seen {
          continue;
        }
        seen := seen + {href};
        css := css + [href];
      }
      assert hrefs[..|hrefs|] == hrefs;
    }

    /** n bounds the depth of the calls. */
    method Collect(key: string, ghost n: nat)
      requires Valid() && key in m && Ends(m, key, n)
      modifies this
      ensures Valid() && css == AddAll(old(css), Gather(m, key, n))
      decreases n
    {
      var c := m[key];
      Link(c.css);
      for k := 0 to |c.imports|
        invariant Valid() && css == AddAll(old(css), GatherFrom(m, c, k, n - 1))
      {
        AddAllJoins(old(css), GatherFrom(m, c, k, n - 1), Gather(m, c.imports[k], n - 1));
        if c.imports[k] in m {
          Collect(c.imports[k], n - 1);
        }
      }
    }
  }

  // ----- What is linked -----

  /** Where href is met first. */
  function FirstAt(s: seq<string>, href: string): (r: nat)
    requires href in s
    ensures r < |s| && s[r] == href && href !in s[..r]
  {
    if s[0] == href then 0 else 1 + FirstAt(s[1..], href)
  }

  ghost predicate Distinct(s: seq<string>) {
    forall i, j :: 0 <= i < j < |s| ==> s[i] != s[j]
  }

  /** The list has each non-empty href once, in the order of first meeting. */
  lemma {:induction false} ListedOnceInOrder(hrefs: seq<string>)
    ensures var css := AddAll([], hrefs);
      && Distinct(css) && (forall h :: h in css <==> h in hrefs && h != "")
      && forall i, j :: 0 <= i < j < |css| ==> FirstAt(hrefs, css[i]) < FirstAt(hrefs, css[j])
    decreases |hrefs|
  {
    if hrefs != [] {
      var n := |hrefs| - 1;
      var front, last := hrefs[..n], hrefs[n];
      ListedOnceInOrder(front);
      var css := AddAll([], front);
      assert hrefs == front + [last];
      forall h | h in front ensures FirstAt(hrefs, h) == FirstAt(front, h) {
        FirstStays(front, last, h);
      }
      if last != "" && last !in css {
        assert FirstAt(hrefs, last) == n;
      }
    }
  }

  lemma {:induction false} FirstStays(front: seq<string>, last: string, h: string)
    requires h in front
    ensures FirstAt(front + [last], h) == FirstAt(front, h)
  {
    if front[0] != h {
      assert (front + [last])[1..] == front[1..] + [last];
      FirstStays(front[1..], last, h);
    }
  }

  /** A chunk at most n steps along the imports of key, itself the first, has href. */
  ghost predicate Reaches(m: Manifest, key: string, href: string, n: nat) {
    exists p :: PathFrom(m, key, p) && |p| <= n && href in m[p[|p| - 1]].css
  }

  lemma ReachesFurther(m: Manifest, key: string, next: string, href: string, n: nat)
    requires Imports(m, key, next) && Reaches(m, next, href, n)
    ensures Reaches(m, key, href, n + 1)
  {
    var p :| PathFrom(m, next, p) && |p| <= n && href in m[p[|p| - 1]].css;
    var q := [key] + p;
    forall i, j | 0 <= i && j == i + 1 < |q| ensures Imports(m, q[i], q[j]) {
      if i > 0 {
        assert Imports(m, p[i - 1], p[i]);
      }
    }
    assert PathFrom(m, key, q);
  }

  lemma ReachedThrough(m: Manifest, key: string, href: string, n: nat) returns (i: nat)
    requires key in m && Reaches(m, key, href, n) && href !in m[key].css
    ensures n > 0 && i < |m[key].imports| && m[key].imports[i] in m && Reaches(m, m[key].imports[i], href, n - 1)
  {
    var p :| PathFrom(m, key, p) && |p| <= n && href in m[p[|p| - 1]].css;
    assert Imports(m, p[0], p[1]);
    var rest := p[1..];
    forall i, j | 0 <= i && j == i + 1 < |rest| ensures Imports(m, rest[i], rest[j]) {
      assert Imports(m, p[i + 1], p[i + 2]);
    }
    assert PathFrom(m, p[1], rest);
    i :| 0 <= i < |m[key].imports| && m[key].imports[i] == p[1];
  }

  lemma {:induction false} GatherFromIff(m: Manifest, c: Chunk, k: nat, n: nat, href: string)
    requires k <= |c.imports|
    ensures href in GatherFrom(m, c, k, n)
      <==> href in c.css || exists i :: 0 <= i < k && href in Gather(m, c.imports[i], n)
    decreases k
  {
    if k > 0 {
      GatherFromIff(m, c, k - 1, n, href);
    }
  }

  lemma {:induction false} GatheredIsReached(m: Manifest, key: string, n: nat, href: string)
    requires key in m && href in Gather(m, key, n)
    ensures Reaches(m, key, href, n)
    decreases n
  {
    var c := m[key];
    GatherFromIff(m, c, |c.imports|, n - 1, href);
    if href in c.css {
      assert PathFrom(m, key, [key]);
    } else {
      var i :| 0 <= i < |c.imports| && href in Gather(m, c.imports[i], n - 1);
      GatheredIsReached(m, c.imports[i], n - 1, href);
      ReachesFurther(m, key, c.imports[i], href, n - 1);
    }
  }

  lemma {:induction false} ReachedIsGathered(m: Manifest, key: string, n: nat, href: string)
    requires key in m && Reaches(m, key, href, n)
    ensures href in Gather(m, key, n)
    decreases n
  {
    var c := m[key];
    GatherFromIff(m, c, |c.imports|, n - 1, href);
    if href !in c.css {
      var i := ReachedThrough(m, key, href, n);
      ReachedIsGathered(m, c.imports[i], n - 1, href);
    }
  }

  /** Main result: without a reachable cycle, the sheets listed are exactly the non-empty ones of the chunks
      reached from the entry through imports, each once. */
  lemma LinkedIffReachable(m: Manifest, entry: string, href: string)
    requires entry in m && Acyclic(m, entry)
    ensures Distinct(StyleSheets(m, entry))
    ensures href in StyleSheets(m, entry)
      <==> href != "" && exists p :: PathFrom(m, entry, p) && href in m[p[|p| - 1]].css
  {
    ListedOnceInOrder(Gather(m, entry, |m|));
    if href in Gather(m, entry, |m|) {
      GatheredIsReached(m, entry, |m|, href);
    }
    if p :| PathFrom(m, entry, p) && href in m[p[|p| - 1]].css {
      ChainsAreShort(m, entry, p);
      ReachedIsGathered(m, entry, |m|, href);
    }
  }

  // ----- Finding the entry -----

  function StripSlashes(path: string): string {
    if path != "" && path[|path| - 1] == '/' then StripSlashes(path[..|path| - 1]) else path
  }

  function AfterSlash(path: string): string {
    if path == "" || path[|path| - 1] == '/' then ""
    else AfterSlash(path[..|path| - 1]) + [path[|path| - 1]]
  }

  /** The last element of a path. */
  function Base(path: string): string {
    if path == "" then "." else
    var rest := StripSlashes(path);
    if rest == "" then "/" else AfterSlash(rest)
  }

  /** The last dot of the last element and what follows it, if there is one. */
  function Ext(path: string): (e: string)
    ensures |e| <= |path|
  {
    if path == "" || path[|path| - 1] == '/' then ""
    else if path[|path| - 1] == '.' then "."
    else
      var e := Ext(path[..|path| - 1]);
      if e == "" then "" else e + [path[|path| - 1]]
  }

  /** The last element without its extension. */
  function Stem(path: string): string { Base(path)[..|Base(path)| - |Ext(Base(path))|] }

  /** A chunk goes by its key's stem, its source's, or its name. same says whether two names are equal up to case. */
  predicate Loose(same: (string, string) -> bool, name: string, key: string, c: Chunk) {
    || same(Stem(key), name)
    || (c.src != "" && same(Stem(c.src), name))
    || (c.name != "" && same(c.name, name))
  }

  lemma {:induction false} AfterSlashOf(dir: string, n: string)
    requires '/' !in n && (dir == "" || dir[|dir| - 1] == '/')
    ensures AfterSlash(dir + n) == n
    decreases |n|
  {
    var path := dir + n;
    if n == "" {
      assert path == dir;
    } else {
      assert path[..|path| - 1] == dir + n[..|n| - 1] && path[|path| - 1] == n[|n| - 1];
      AfterSlashOf(dir, n[..|n| - 1]);
    }
  }

  lemma {:induction false} ExtOf(n: string, e: string)
    requires '/' !in e && '.' !in e
    ensures Ext(n + "." + e) == "." + e
    decreases |e|
  {
    var path := n + "." + e;
    if e == "" {
      assert path == n + ".";
    } else {
      assert path[..|path| - 1] == n + "." + e[..|e| - 1] && path[|path| - 1] == e[|e| - 1];
      ExtOf(n, e[..|e| - 1]);
      assert "." + e[..|e| - 1] + [e[|e| - 1]] == "." + e;
    }
  }

  /** A file's stem, in any directory, is its name up to the last dot. */
  lemma StemOf(dir: string, n: string, e: string)
    requires '/' !in n && '/' !in e && '.' !in e && (dir == "" || dir[|dir| - 1] == '/')
    ensures Stem(dir + (n + "." + e)) == n
  {
    var file := n + "." + e;
    assert (dir + file)[|dir + file| - 1] != '/';
    AfterSlashOf(dir, file);
    ExtOf(n, e);
    assert file[..|file| - |"." + e|] == n;
  }

  predicate Slashes(s: string) { forall i :: 0 <= i < |s| ==> s[i] == '/' }

  lemma {:induction false} StripOf(path: string, s: string)
    requires Slashes(s) && (path == "" || path[|path| - 1] != '/')
    ensures StripSlashes(path + s) == path
    decreases |s|
  {
    if s == "" {
      assert path + s == path;
    } else {
      assert (path + s)[..|path + s| - 1] == path + s[..|s| - 1];
      StripOf(path, s[..|s| - 1]);
    }
  }

  /** The last element of a path, slashes at the end aside; a path of slashes only is one slash, an empty one a dot. */
  lemma BaseOf(dir: string, n: string, s: string)
    requires '/' !in n && Slashes(s) && (dir == "" || dir[|dir| - 1] == '/')
    ensures n != "" ==> Base(dir + n + s) == n
    ensures Slashes(dir) && n == "" ==> Base(dir + n + s) == if dir + n + s == "" then "." else "/"
  {
    if n != "" {
      StripOf(dir + n, s);
      AfterSlashOf(dir, n);
    } else if Slashes(dir) {
      assert dir + n + s == "" + (dir + s);
      StripOf("", dir + s);
    }
  }

  lemma {:induction false} NoExt(n: string)
    requires '/' !in n && '.' !in n
    ensures Ext(n) == ""
    decreases |n|
  {
    if n != "" {
      NoExt(n[..|n| - 1]);
    }
  }

  /** A file without an extension is its own stem. */
  lemma StemOfPlain(dir: string, n: string)
    requires n != "" && '/' !in n && '.' !in n && (dir == "" || dir[|dir| - 1] == '/')
    ensures Stem(dir + n) == n
  {
    BaseOf(dir, n, "");
    assert dir + n + "" == dir + n;
    NoExt(n);
  }

  /** The file of this directory with this stem and extension, or without an extension. */
  predicate Named(path: string, dir: string, stem: string, e: string) {
    && (dir == "" || dir[|dir| - 1] == '/') && '/' !in e && '.' !in e
    && (path == dir + (stem + "." + e) || ('.' !in stem && path == dir + stem))
  }

  /** A file in any directory with this stem. */
  ghost predicate FileOf(path: string, stem: string) {
    stem != "" && '/' !in stem && exists dir, e :: Named(path, dir, stem, e)
  }

  lemma StemOfFile(path: string, stem: string)
    requires FileOf(path, stem)
    ensures Stem(path) == stem
  {
    var dir, e :| Named(path, dir, stem, e);
    if path == dir + (stem + "." + e) {
      StemOf(dir, stem, e);
    } else {
      StemOfPlain(dir, stem);
    }
  }

  /** A chunk goes by a name exactly when it is the stem of its key's file or of its source's, or its own name; a source
      or a name that is not given does not count. */
  lemma LooseIff(same: (string, string) -> bool, name: string, key: string, c: Chunk, stem: string, srcStem: string)
    requires FileOf(key, stem) && (c.src == "" || FileOf(c.src, srcStem))
    ensures Loose(same, name, key, c)
      <==> same(stem, name) || (c.src != "" && same(srcStem, name)) || (c.name != "" && same(c.name, name))
  {
    StemOfFile(key, stem);
    if c.src != "" {
      StemOfFile(c.src, srcStem);
    }
  }

  function Candidates(name: string): seq<string> {
    [ "islands/" + name + ".tsx", name + ".tsx", "islands/" + name + ".jsx", name + ".jsx",
      "islands/" + name + ".ts", name + ".ts", "islands/" + name + ".js", name + ".js" ]
  }

  predicate Exact(m: Manifest, name: string) {
    name in m || exists k :: k in Candidates(name) && k in m
  }

  /** The keys a lookup may answer with. Matching by base name goes through the map in no fixed order, so any
      loose match may be the one. */
  ghost predicate MayFind(m: Manifest, name: string, same: (string, string) -> bool, found: Option<string>) {
    if name == "" then found == None
    else if name in m then found == Some(name)
    else if Exact(m, name) then
      exists i :: 0 <= i < 8 && Candidates(name)[i] in m && found == Some(Candidates(name)[i])
        && forall j :: 0 <= j < i ==> Candidates(name)[j] !in m
    else match found
      case Some(key) => key in m && Loose(same, name, key, m[key])
      case None => forall key :: key in m ==> !Loose(same, name, key, m[key])
  }

  /** A name is found whenever some file of the manifest, in any directory and with any extension, goes by it. */
  lemma FoundByFileName(m: Manifest, name: string, same: (string, string) -> bool, dir: string, n: string, e: string)
    requires name != "" && dir + (n + "." + e) in m && same(n, name)
    requires '/' !in n && '/' !in e && '.' !in e && (dir == "" || dir[|dir| - 1] == '/')
    ensures !MayFind(m, name, same, None)
  {
    StemOf(dir, n, e);
    assert Loose(same, name, dir + (n + "." + e), m[dir + (n + "." + e)]);
  }

  method Lookup(m: Manifest, name: string, same: (string, string) -> bool) returns (found: Option<string>)
    ensures MayFind(m, name, same, found)
    ensures found.Some? ==> found.value in m
  {
    if name == "" {
      return None;
    }
    if name in m {
      return Some(name);
    }
    var keys := Candidates(name);
    for i := 0 to |keys|
      invariant forall j :: 0 <= j < i ==> keys[j] !in m
    {
      if keys[i] in m {
        return Some(keys[i]);
      }
    }
    assert !Exact(m, name);
    var left := m.Keys;
    while left != {}
      invariant left <= m.Keys && forall key :: key in m && key !in left ==> !Loose(same, name, key, m[key])
    {
      var key :| key in left;
      if Loose(same, name, key, m[key]) {
        return Some(key);
      }
      left := left - {key};
    }
    return None;
  }

  datatype Assets = Assets(js: string, css: seq<string>) | NotFound | EmptyFile(key: string)

  /** An unknown entry or one without a file is an error; any other gives its file and its style sheets. */
  method Resolve(m: Manifest, name: string, same: (string, string) -> bool) returns (r: Assets)
    requires forall key :: key in m && MayFind(m, name, same, Some(key)) ==> Acyclic(m, key)
    ensures match r
      case NotFound => MayFind(m, name, same, None)
      case EmptyFile(key) => MayFind(m, name, same, Some(key)) && key in m && m[key].file == ""
      case Assets(js, css) =>
        exists key :: MayFind(m, name, same, Some(key)) && key in m && js == m[key].file != "" && css == StyleSheets(m, key)
  {
    var found := Lookup(m, name, same);
    if found.None? {
      return NotFound;
    }
    var key := found.value;
    if m[key].file == "" {
      return EmptyFile(key);
    }
    var collector := new Collector(m);
    EndsBelow(m, [key], |m|);
    collector.Collect(key, |m|);
    return Assets(m[key].file, collector.css);
  }

  // ----- Which file a name finds, and in what order its sheets come -----

  const EXTENSIONS := [".tsx", ".jsx", ".ts", ".js"]

  lemma CandidateAt(name: string, j: nat)
    requires j < 4
    ensures Candidates(name)[2 * j] == "islands/" + name + EXTENSIONS[j]
    ensures Candidates(name)[2 * j + 1] == name + EXTENSIONS[j]
  {
    var c := Candidates(name);
    if j == 0 {
      assert c[0] == "islands/" + name + ".tsx" && c[1] == name + ".tsx";
    } else if j == 1 {
      assert c[2] == "islands/" + name + ".jsx" && c[3] == name + ".jsx";
    } else if j == 2 {
      assert c[4] == "islands/" + name + ".ts" && c[5] == name + ".ts";
    } else {
      assert c[6] == "islands/" + name + ".js" && c[7] == name + ".js";
    }
  }

  lemma EarlierAreMissing(m: Manifest, name: string, i: nat, j: nat)
    requires i <= 4 && j < 2 * i
    requires forall h :: 0 <= h < i ==> name + EXTENSIONS[h] !in m && "islands/" + name + EXTENSIONS[h] !in m
    ensures Candidates(name)[j] !in m
  {
    var h := j / 2;
    CandidateAt(name, h);
    assert j == 2 * h || j == 2 * h + 1;
    assert name + EXTENSIONS[h] !in m && "islands/" + name + EXTENSIONS[h] !in m;
  }

  /** A name that is no key itself finds the first extension there is, under islands before anywhere else. */
  lemma PrefersFirstExtension(m: Manifest, name: string, same: (string, string) -> bool, found: Option<string>, i: nat)
    requires name != "" && name !in m && MayFind(m, name, same, found) && i < 4
    requires forall j :: 0 <= j < i ==> name + EXTENSIONS[j] !in m && "islands/" + name + EXTENSIONS[j] !in m
    ensures "islands/" + name + EXTENSIONS[i] in m ==> found == Some("islands/" + name + EXTENSIONS[i])
    ensures "islands/" + name + EXTENSIONS[i] !in m && name + EXTENSIONS[i] in m ==> found == Some(name + EXTENSIONS[i])
  {
    var c := Candidates(name);
    forall j | 0 <= j < 2 * i ensures c[j] !in m {
      EarlierAreMissing(m, name, i, j);
    }
    CandidateAt(name, i);
    if c[2 * i] in m || c[2 * i + 1] in m {
      var k := if c[2 * i] in m then 2 * i else 2 * i + 1;
      assert c[k] in c && Exact(m, name);
      var l :| 0 <= l < 8 && c[l] in m && found == Some(c[l]) && forall j :: 0 <= j < l ==> c[j] !in m;
      assert l == k;
    }
  }

  lemma {:induction false} GatherExtends(m: Manifest, c: Chunk, k: nat, more: nat, n: nat)
    requires k <= more <= |c.imports|
    ensures GatherFrom(m, c, k, n) <= GatherFrom(m, c, more, n)
    decreases more
  {
    if k < more {
      GatherExtends(m, c, k, more - 1, n);
    }
  }

  lemma {:induction false} AddAllExtends(css: seq<string>, hrefs: seq<string>)
    ensures css <= AddAll(css, hrefs)
    decreases |hrefs|
  {
    if hrefs != [] {
      AddAllExtends(css, hrefs[..|hrefs| - 1]);
    }
  }

  /** A prefix of what is met gives a prefix of what is listed. */
  lemma ListedInStages(early: seq<string>, all: seq<string>, i: nat, j: nat)
    requires early <= all && i < |AddAll([], all)| && j < |AddAll([], all)|
    requires AddAll([], all)[i] in early && AddAll([], all)[j] !in early
    ensures i < j
  {
    var sheets, first := AddAll([], all), AddAll([], early);
    assert all == early + all[|early|..];
    AddAllJoins([], early, all[|early|..]);
    AddAllExtends(first, all[|early|..]);
    ListedOnceInOrder(all);
    ListedOnceInOrder(early);
    assert sheets[i] in sheets && sheets[i] in first;
    assert forall h :: h in first ==> h in early;
    assert forall x :: 0 <= x < |first| ==> sheets[x] in first;
    var k :| 0 <= k < |first| && first[k] == sheets[i];
    assert sheets[k] == sheets[i];
  }

  /** A sheet of the chunk itself or of one reached through its first k imports. */
  ghost predicate Early(m: Manifest, key: string, k: nat, href: string)
    requires key in m && k <= |m[key].imports|
  {
    || href in m[key].css
    || exists a, p :: 0 <= a < k && PathFrom(m, m[key].imports[a], p) && href in m[p[|p| - 1]].css
  }

  lemma EarlyIff(m: Manifest, entry: string, k: nat, href: string)
    requires entry in m && Acyclic(m, entry) && k <= |m[entry].imports|
    ensures Early(m, entry, k, href) <==> href in GatherFrom(m, m[entry], k, |m| - 1)
  {
    var c, n := m[entry], |m| - 1;
    GatherFromIff(m, c, k, n, href);
    forall a | 0 <= a < k
      ensures href in Gather(m, c.imports[a], n)
        <==> exists p :: PathFrom(m, c.imports[a], p) && href in m[p[|p| - 1]].css
    {
      ThroughImport(m, entry, a, href);
    }
  }

  lemma ThroughImport(m: Manifest, entry: string, a: nat, href: string)
    requires entry in m && Acyclic(m, entry) && a < |m[entry].imports|
    ensures var next := m[entry].imports[a];
      href in Gather(m, next, |m| - 1) <==> exists p :: PathFrom(m, next, p) && href in m[p[|p| - 1]].css
  {
    var next, n := m[entry].imports[a], |m| - 1;
    if next in m && href in Gather(m, next, n) {
      GatheredIsReached(m, next, n, href);
    }
    if p :| PathFrom(m, next, p) && href in m[p[|p| - 1]].css {
      assert Imports(m, entry, next);
      var q := [entry] + p;
      forall i, j | 0 <= i && j == i + 1 < |q| ensures Imports(m, q[i], q[j]) {
        if i > 0 {
          assert Imports(m, p[i - 1], p[i]);
        }
      }
      assert PathFrom(m, entry, q);
      ChainsAreShort(m, entry, q);
      ReachedIsGathered(m, next, n, href);
    }
  }

  /** Main result: the entry's own sheets come before all others, and sheets reached through earlier imports before those
      reached only through later ones. */
  lemma SheetsFollowImports(m: Manifest, entry: string, k: nat, i: nat, j: nat)
    requires entry in m && Acyclic(m, entry) && k <= |m[entry].imports|
    requires i < |StyleSheets(m, entry)| && j < |StyleSheets(m, entry)|
    requires Early(m, entry, k, StyleSheets(m, entry)[i]) && !Early(m, entry, k, StyleSheets(m, entry)[j])
    ensures i < j
  {
    assert |m| > 0;
    EarlyIff(m, entry, k, StyleSheets(m, entry)[i]);
    EarlyIff(m, entry, k, StyleSheets(m, entry)[j]);
    GatherExtends(m, m[entry], k, |m[entry].imports|, |m| - 1);
    ListedInStages(GatherFrom(m, m[entry], k, |m| - 1), Gather(m, entry, |m|), i, j);
  }
}
