/** The page cache key of irmik/cache/key.go. */
module CacheKey {
  import opened Strings

  function TrimLeft(s: string): string {
    if s != "" && IsSpace(s[0]) then TrimLeft(s[1..]) else s
  }

  function TrimRight(s: string): string {
    if s != "" && IsSpace(s[|s| - 1]) then TrimRight(s[..|s| - 1]) else s
  }

  function TrimSpace(s: string): string { TrimRight(TrimLeft(s)) }

  /** ASCII letters only. */
  function ToUpper(s: string): string {
    if s == "" then "" else
    [if 'a' <= s[0] <= 'z' then ((s[0] as int) - 32) as char else s[0]] + ToUpper(s[1..])
  }

  function NormMethod(verb: string): string {
    var m := ToUpper(TrimSpace(verb));
    if m == "" || m == "HEAD" then "GET" else m
  }

  function NormPath(path: string): string {
    var p := TrimSpace(path);
    if p == "" then "/" else p
  }

  function NormLocale(locale: string): string {
    var l := TrimSpace(locale);
    if l == "" then "en" else l
  }

  function Key(verb: string, path: string, locale: string): string {
    NormMethod(verb) + "|" + NormPath(path) + "|" + NormLocale(locale)
  }

  /** How many bars a text holds. */
  function Bars(s: string): nat {
    if s == "" then 0 else (if s[0] == '|' then 1 else 0) + Bars(s[1..])
  }

  lemma {:induction false} BarsJoin(a: string, b: string)
    ensures Bars(a + b) == Bars(a) + Bars(b)
    decreases |a|
  {
    if a == "" {
      assert a + b == b;
    } else {
      assert (a + b)[1..] == a[1..] + b;
      BarsJoin(a[1..], b);
    }
  }

  lemma LongerHasMore(a: string, b: string)
    requires a + "|" <= b
    ensures Bars(b) > Bars(a)
  {
    var rest := b[|a| + 1..];
    assert b == a + "|" + rest;
    BarsJoin(a + "|", rest);
    BarsJoin(a, "|");
  }

  /** Text before a bar is told by how many bars it holds itself. */
  lemma SameBarsSameHead(a: string, x: string, b: string, y: string)
    requires Bars(a) == Bars(b) && a + "|" + x == b + "|" + y
    ensures a == b && x == y
  {
    var s := a + "|" + x;
    if |a| < |b| {
      assert a + "|" == s[..|a| + 1] == b[..|a| + 1];
      LongerHasMore(a, b);
    } else if |b| < |a| {
      assert b + "|" == s[..|b| + 1] == a[..|b| + 1];
      LongerHasMore(b, a);
    }
    assert s[..|a|] == a && s[..|b|] == b;
    assert s[|a| + 1..] == x && s[|b| + 1..] == y;
  }

  lemma SameBarsSameTail(x: string, a: string, y: string, b: string)
    requires Bars(a) == Bars(b) && x + "|" + a == y + "|" + b
    ensures a == b && x == y
  {
    BarsJoin(x + "|", a);
    BarsJoin(x, "|");
    BarsJoin(y + "|", b);
    BarsJoin(y, "|");
    SameBarsSameHead(x, a, y, b);
  }

  /** Keys tell requests apart up to normalisation, whatever bars the paths hold, as long as the methods hold equally
      many bars and so do the locales; a method as sent and a locale as configured hold none. */
  lemma SameKeyIff(m: string, p: string, l: string, m': string, p': string, l': string)
    ensures Key(m, p, l) == Key(m', p', l')
            && Bars(NormMethod(m)) == Bars(NormMethod(m')) && Bars(NormLocale(l)) == Bars(NormLocale(l'))
            <==> NormMethod(m) == NormMethod(m') && NormPath(p) == NormPath(p') && NormLocale(l) == NormLocale(l')
  {
    if Key(m, p, l) == Key(m', p', l')
       && Bars(NormMethod(m)) == Bars(NormMethod(m')) && Bars(NormLocale(l)) == Bars(NormLocale(l')) {
      SameBarsSameTail(NormMethod(m) + "|" + NormPath(p), NormLocale(l), NormMethod(m') + "|" + NormPath(p'), NormLocale(l'));
      SameBarsSameHead(NormMethod(m), NormPath(p), NormMethod(m'), NormPath(p'));
    }
  }

  /** A bar in a locale can stand for one in a path. */
  lemma BarsCollide()
    ensures Key("GET", "/a|b", "c") == Key("GET", "/a", "b|c")
  {
    var g := NormMethod("GET");
    assert NormPath("/a|b") == "/a|b" && NormLocale("c") == "c" && NormPath("/a") == "/a" && NormLocale("b|c") == "b|c";
    assert "|" + "/a|b" + "|" + "c" == "|" + "/a" + "|" + "b|c";
    assert g + "|" + "/a|b" + "|" + "c" == g + ("|" + "/a|b" + "|" + "c");
    assert g + "|" + "/a" + "|" + "b|c" == g + ("|" + "/a" + "|" + "b|c");
  }

  /** One router uses one method and one locale: there the key is the normalised path, with no condition. */
  lemma SamePageIff(verb: string, p: string, q: string, locale: string)
    ensures Key(verb, p, locale) == Key(verb, q, locale) <==> NormPath(p) == NormPath(q)
  {
    var a, x, y, b := NormMethod(verb), NormPath(p), NormPath(q), NormLocale(locale);
    if Key(verb, p, locale) == Key(verb, q, locale) {
      var s, t := a + "|" + x + "|" + b, a + "|" + y + "|" + b;
      assert |x| == |y|;
      assert s[|a| + 1..|a| + 1 + |x|] == x && t[|a| + 1..|a| + 1 + |y|] == y;
    }
  }

  // ----- What normalisation keeps -----

  predicate White(s: string) { forall i :: 0 <= i < |s| ==> IsSpace(s[i]) }

  /** Not empty, and neither beginning nor ending with white space. */
  predicate Clean(s: string) { s != "" && !IsSpace(s[0]) && !IsSpace(s[|s| - 1]) }

  /** s is core with white space around it. */
  ghost predicate Around(s: string, core: string) { exists a, b :: White(a) && White(b) && s == a + core + b }

  /** s stands for core: with white space around it, or, if s is nothing but white space, by default. */
  ghost predicate Means(s: string, core: string, default: string) {
    if White(s) then core == default else Clean(core) && Around(s, core)
  }

  lemma {:induction false} TrimLeftCuts(s: string) returns (a: string)
    ensures White(a) && s == a + TrimLeft(s) && (TrimLeft(s) == "" || !IsSpace(TrimLeft(s)[0]))
    decreases |s|
  {
    if s != "" && IsSpace(s[0]) {
      var rest := TrimLeftCuts(s[1..]);
      a := [s[0]] + rest;
    } else {
      a := "";
    }
  }

  lemma {:induction false} TrimRightCuts(s: string) returns (b: string)
    ensures White(b) && s == TrimRight(s) + b && (TrimRight(s) == "" || !IsSpace(TrimRight(s)[|TrimRight(s)| - 1]))
    decreases |s|
  {
    if s != "" && IsSpace(s[|s| - 1]) {
      var rest := TrimRightCuts(s[..|s| - 1]);
      b := rest + [s[|s| - 1]];
    } else {
      b := "";
    }
  }

  /** White space around a clean text is exactly what is cut off. */
  lemma CoreIsUnique(a: string, x: string, b: string, c: string, y: string, d: string)
    requires White(a) && White(b) && White(c) && White(d) && Clean(x) && Clean(y) && a + x + b == c + y + d
    ensures a == c && x == y && b == d
  {
    var s := a + x + b;
    assert s[|a|] == x[0] && s[|c|] == y[0];
    assert forall i :: 0 <= i < |a| ==> s[i] == a[i];
    assert forall i :: 0 <= i < |c| ==> s[i] == c[i];
    assert |a| == |c|;
    var m, n := |a| + |x|, |c| + |y|;
    assert s[m - 1] == x[|x| - 1] && s[n - 1] == y[|y| - 1];
    assert forall i :: m <= i < |s| ==> s[i] == b[i - m];
    assert forall i :: n <= i < |s| ==> s[i] == d[i - n];
    assert m == n;
    assert s[..|a|] == a && s[..|c|] == c && s[|a|..m] == x && s[|a|..n] == y && s[m..] == b && s[n..] == d;
  }

  lemma TrimSpaceIs(s: string) returns (a: string, b: string)
    ensures White(a) && White(b) && s == a + TrimSpace(s) + b
    ensures if White(s) then TrimSpace(s) == "" else Clean(TrimSpace(s))
  {
    a := TrimLeftCuts(s);
    b := TrimRightCuts(TrimLeft(s));
    var x := TrimSpace(s);
    assert TrimLeft(s) == x + b;
    if x != "" {
      assert TrimLeft(s)[0] == x[0];
      assert s[|a|] == x[0];
    } else {
      assert s == a + b;
    }
  }

  /** Trimming with a default finds exactly what a text stands for. */
  lemma TrimMeans(s: string, core: string, default: string)
    requires default != ""
    ensures core == (if TrimSpace(s) == "" then default else TrimSpace(s)) <==> Means(s, core, default)
  {
    var a, b := TrimSpaceIs(s);
    if !White(s) {
      assert Around(s, TrimSpace(s));
      if Clean(core) && Around(s, core) {
        var c, d :| White(c) && White(d) && s == c + core + d;
        CoreIsUnique(a, TrimSpace(s), b, c, core, d);
      }
    }
  }

  /** Every text stands for something. */
  lemma MeansSomething(s: string, default: string) returns (core: string)
    requires default != ""
    ensures Means(s, core, default)
  {
    core := if TrimSpace(s) == "" then default else TrimSpace(s);
    TrimMeans(s, core, default);
  }

  /** Main result: with method and locale fixed, two paths share a key if and only if they are the same path with white
      space around it, a path of nothing but white space standing for the root. */
  lemma SamePathIff(verb: string, p: string, q: string, locale: string)
    ensures Key(verb, p, locale) == Key(verb, q, locale) <==> exists core :: Means(p, core, "/") && Means(q, core, "/")
    ensures Clean(p) && Clean(q) ==> (Key(verb, p, locale) == Key(verb, q, locale) <==> p == q)
  {
    SamePageIff(verb, p, q, locale);
    TrimMeans(p, NormPath(p), "/");
    TrimMeans(q, NormPath(q), "/");
    forall core ensures Means(p, core, "/") <==> core == NormPath(p) {
      TrimMeans(p, core, "/");
    }
    forall core ensures Means(q, core, "/") <==> core == NormPath(q) {
      TrimMeans(q, core, "/");
    }
    CleanStands(p, "/");
    CleanStands(q, "/");
  }

  lemma CleanStands(s: string, default: string)
    ensures Clean(s) ==> Means(s, s, default)
  {
    if Clean(s) {
      assert White("") && s == "" + s + "";
    }
  }

  /** White space around a text does not change what it stands for. */
  lemma MeansAround(a: string, s: string, b: string, core: string, default: string)
    requires White(a) && White(b) && Means(s, core, default)
    ensures Means(a + s + b, core, default)
  {
    var t := a + s + b;
    if !White(s) {
      var c, d :| White(c) && White(d) && s == c + core + d;
      assert White(a + c) && White(d + b);
      assert t == (a + c) + core + (d + b);
      var i :| 0 <= i < |s| && !IsSpace(s[i]);
      assert t[|a| + i] == s[i];
    }
  }

  /** White space around a path makes no difference, and a path of nothing else is the root. */
  lemma SpaceAroundPath(verb: string, a: string, p: string, b: string, locale: string)
    requires White(a) && White(b)
    ensures Key(verb, a + p + b, locale) == Key(verb, p, locale)
    ensures White(p) ==> Key(verb, p, locale) == Key(verb, "/", locale)
  {
    var core := MeansSomething(p, "/");
    MeansAround(a, p, b, core, "/");
    SamePathIff(verb, a + p + b, p, locale);
    SamePathIff(verb, p, "/", locale);
    CleanStands("/", "/");
  }

  /** With method and path fixed, two locales share a key if and only if they are the same up to white space around them,
      one of nothing but white space standing for en. */
  lemma SameLocaleIff(verb: string, path: string, l: string, k: string)
    ensures Key(verb, path, l) == Key(verb, path, k) <==> exists core :: Means(l, core, "en") && Means(k, core, "en")
  {
    var head, x, y := NormMethod(verb) + "|" + NormPath(path) + "|", NormLocale(l), NormLocale(k);
    if head + x == head + y {
      assert (head + x)[|head|..] == x && (head + y)[|head|..] == y;
    }
    forall core ensures Means(l, core, "en") <==> core == x {
      TrimMeans(l, core, "en");
    }
    forall core ensures Means(k, core, "en") <==> core == y {
      TrimMeans(k, core, "en");
    }
    assert Means(l, x, "en") && Means(k, y, "en");
    assert Key(verb, path, l) == head + x && Key(verb, path, k) == head + y;
  }

  /** The same letters, those of ASCII up to case. */
  predicate SameLetter(c: char, d: char) {
    c == d || ('a' <= c <= 'z' && c as int - d as int == 32) || ('a' <= d <= 'z' && d as int - c as int == 32)
  }

  predicate SameLetters(s: string, t: string) { |s| == |t| && forall i :: 0 <= i < |s| ==> SameLetter(s[i], t[i]) }

  lemma {:induction false} UpperAt(s: string)
    ensures |ToUpper(s)| == |s|
    ensures forall i :: 0 <= i < |s| ==>
      ToUpper(s)[i] == if 'a' <= s[i] <= 'z' then (s[i] as int - 32) as char else s[i]
    decreases |s|
  {
    if s != "" {
      UpperAt(s[1..]);
    }
  }

  lemma UpperIff(s: string, t: string)
    ensures ToUpper(s) == ToUpper(t) <==> SameLetters(s, t)
  {
    UpperAt(s);
    UpperAt(t);
    if SameLetters(s, t) {
      forall i | 0 <= i < |s| ensures ToUpper(s)[i] == ToUpper(t)[i] {
        assert SameLetter(s[i], t[i]);
      }
    }
    if ToUpper(s) == ToUpper(t) {
      forall i | 0 <= i < |s| ensures SameLetter(s[i], t[i]) {
        assert ToUpper(s)[i] == ToUpper(t)[i];
      }
    }
  }

  /** A method that reads: GET or HEAD in any letters. */
  predicate ReadsPage(verb: string) { SameLetters(verb, "GET") || SameLetters(verb, "HEAD") }

  lemma MethodIs(verb: string, core: string)
    requires Means(verb, core, "GET")
    ensures NormMethod(verb) == if ReadsPage(core) then "GET" else ToUpper(core)
  {
    TrimMeans(verb, core, "GET");
    UpperIff(core, "GET");
    UpperIff(core, "HEAD");
    UpperAt(core);
    assert ToUpper("GET") == "GET" && ToUpper("HEAD") == "HEAD";
    assert ToUpper("") == "";
  }

  lemma SameHeads(a: string, b: string, path: string, locale: string)
    ensures a + "|" + path + "|" + locale == b + "|" + path + "|" + locale <==> a == b
  {
    var s, t := a + "|" + path + "|" + locale, b + "|" + path + "|" + locale;
    if s == t {
      assert |a| == |b|;
      assert s[..|a|] == a && t[..|b|] == b;
    }
  }

  lemma SameNormMethods(x: string, y: string, a: string, b: string)
    requires a == (if ReadsPage(x) then "GET" else ToUpper(x)) && b == (if ReadsPage(y) then "GET" else ToUpper(y))
    ensures a == b <==> SameLetters(x, y) || (ReadsPage(x) && ReadsPage(y))
  {
    UpperIff(x, y);
    UpperIff(x, "GET");
    UpperIff(y, "GET");
    UpperIff(x, "HEAD");
    UpperIff(y, "HEAD");
    assert ToUpper("GET") == "GET";
  }

  /** With path and locale fixed, two methods share a key if and only if they are the same letters up to white space
      around them, or both read: GET, HEAD or nothing but white space. */
  lemma SameMethodIff(v: string, w: string, path: string, locale: string, x: string, y: string)
    requires Means(v, x, "GET") && Means(w, y, "GET")
    ensures Key(v, path, locale) == Key(w, path, locale) <==> SameLetters(x, y) || (ReadsPage(x) && ReadsPage(y))
  {
    MethodIs(v, x);
    MethodIs(w, y);
    SameNormMethods(x, y, NormMethod(v), NormMethod(w));
    SameHeads(NormMethod(v), NormMethod(w), NormPath(path), NormLocale(locale));
  }

  /** A HEAD request uses the key of the GET. */
  lemma HeadSharesGet(path: string, locale: string)
    ensures Key("HEAD", path, locale) == Key("GET", path, locale)
  {
    CleanStands("HEAD", "GET");
    CleanStands("GET", "GET");
    SameMethodIff("HEAD", "GET", path, locale, "HEAD", "GET");
  }
}
