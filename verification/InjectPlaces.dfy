/** Where injectHTML puts the tag when the body is lower-cased rune by rune. The position is found in the
    lower-cased body and used in the body itself, which is right exactly when lower-casing keeps the length of what
    comes before the last end tag. */
module InjectPlaces {
  import opened Common
  import opened Lowering
  import opened Inject

  predicate TagByte(c: char) { c == '<' || c == '/' || c == 'b' || c == 'o' || c == 'd' || c == 'y' || c == '>' }

  predicate NoTagByte(s: string) { forall i :: 0 <= i < |s| ==> !TagByte(s[i]) }

  predicate AllTagBytes(s: string) { forall i :: 0 <= i < |s| ==> TagByte(s[i]) }

  /** Runes outside ASCII have a lower case, and none that writes a byte of the end tag; i and k are the only ASCII
      letters that are the lower case of other runes. */
  ghost predicate KeepsTags(table: Table) {
    forall r :: |r| > 1 ==> table(r) != "" && NoTagByte(table(r))
  }

  function Lower(table: Table): string -> string { s => ToLower(table, s) }

  // ----- Runes -----

  /** An ASCII byte, or a rune that cannot take part in an end tag. */
  predicate Sound(r: Rune) {
    || (|r.bytes| == 1 && Ascii(r.bytes[0]) && r.lower == [LowerByte(r.bytes[0])])
    || (r.bytes != "" && r.lower != "" && NoTagByte(r.lower))
  }

  ghost predicate AllSound(runes: seq<Rune>) { forall i :: 0 <= i < |runes| ==> Sound(runes[i]) }

  lemma {:induction false} RunesAreSound(table: Table, s: string)
    requires KeepsTags(table)
    ensures AllSound(Runes(table, s))
    decreases |s|
  {
    if s != "" {
      RunesAreSound(table, s[Width(s)..]);
    }
  }

  lemma FirstIsAscii(runes: seq<Rune>)
    requires AllSound(runes) && Lowered(runes) != "" && TagByte(Lowered(runes)[0])
    ensures Text(runes) != "" && Lowered(runes)[0] == LowerByte(Text(runes)[0])
    ensures Lowered(runes)[1..] == Lowered(runes[1..]) && Text(runes)[1..] == Text(runes[1..])
  {
    assert runes[0].lower[0] == Lowered(runes)[0];
  }

  /** Lower-cased text that starts like an end tag comes from text that does. */
  lemma {:induction false} StartsAlike(runes: seq<Rune>, t: string)
    requires AllSound(runes) && AllTagBytes(t) && t <= Lowered(runes)
    ensures |t| <= |Text(runes)| && AsciiLower(Text(runes)[..|t|]) == t
    decreases |t|
  {
    if t != "" {
      assert t[0] == Lowered(runes)[0];
      FirstIsAscii(runes);
      StartsAlike(runes[1..], t[1..]);
      AddFirst(Text(runes), t);
    }
  }

  lemma AddFirst(s: string, t: string)
    requires s != "" && t != "" && t[0] == LowerByte(s[0])
    requires |t| <= |s| && AsciiLower(s[1..][..|t| - 1]) == t[1..]
    ensures AsciiLower(s[..|t|]) == t
  {
    assert s[..|t|] == [s[0]] + s[1..][..|t| - 1];
    AsciiLowerFirst(s[0], s[1..][..|t| - 1]);
  }

  /** Text of end-tag bytes found in the lower case starts where some rune starts. */
  lemma {:induction false} Origin(runes: seq<Rune>, t: string, j: nat) returns (p: nat)
    requires AllSound(runes) && t != "" && AllTagBytes(t) && At(Lowered(runes), t, j)
    ensures p <= |runes| && |Lowered(runes[..p])| == j && t <= Lowered(runes[p..])
    decreases |runes|
  {
    var low := Lowered(runes);
    if j == 0 {
      assert low[0..|t|] == low[..|t|] && runes[0..] == runes;
      p := 0;
    } else {
      var first, rest := runes[0], runes[1..];
      assert low == first.lower + Lowered(rest) && low[j] == low[j..j + |t|][0];
      assert j >= |first.lower|;
      assert low[j..j + |t|] == Lowered(rest)[j - |first.lower|..j - |first.lower| + |t|];
      var k := Origin(rest, t, j - |first.lower|);
      p := k + 1;
      assert runes[..p] == [first] + rest[..k] && runes[p..] == rest[k..];
    }
  }

  /** Different starts of runes are different places. */
  lemma PlaceOfRune(runes: seq<Rune>, p: nat, q: nat)
    requires AllSound(runes) && p < q <= |runes|
    ensures |Text(runes[..p])| < |Text(runes[..q])|
  {
    assert runes[..q] == runes[..p] + runes[p..q];
    Joins(runes[..p], runes[p..q]);
    assert Sound(runes[p]) && runes[p..q][0] == runes[p];
  }

  // ----- End tags of the body and of its lower case -----

  lemma TagIsAscii(body: string, i: nat)
    requires EndTagAt(body, i)
    ensures AsciiLower(body[i..i + |BODY_END|]) == BODY_END
    ensures forall k :: i <= k < i + |BODY_END| ==> Ascii(body[k])
  {
    var tag := body[i..i + |BODY_END|];
    assert AsciiLower(BODY_END) == BODY_END;
    forall k | i <= k < i + |BODY_END| ensures Ascii(body[k]) {
      assert LowerByte(tag[k - i]) == AsciiLower(BODY_END)[k - i];
    }
  }

  /** ASCII text within the body is lower-cased in place, as far along as what comes before it is long. */
  lemma Image(table: Table, a: string, t: string, b: string)
    requires t != "" && forall k :: 0 <= k < |t| ==> Ascii(t[k])
    ensures At(ToLower(table, a + (t + b)), AsciiLower(t), |ToLower(table, a)|)
  {
    LowerSeparates(table, a, t + b);
    AsciiText(table, t, b);
    MiddleIsAt(ToLower(table, a), AsciiLower(t), ToLower(table, b));
  }

  lemma MiddleIsAt(a: string, t: string, b: string)
    ensures At(a + (t + b), t, |a|)
  {
  }

  /** An end tag of the body is one of its lower case. */
  lemma TagImage(table: Table, body: string, i: nat)
    requires EndTagAt(body, i)
    ensures At(ToLower(table, body), BODY_END, |ToLower(table, body[..i])|)
  {
    TagIsAscii(body, i);
    var a, t, b := body[..i], body[i..i + |BODY_END|], body[i + |BODY_END|..];
    assert body == a + (t + b);
    Image(table, a, t, b);
  }

  /** The runes before a rune that starts with an ASCII byte are those of the text before it. */
  lemma RunesBefore(table: Table, body: string, p: nat)
    requires KeepsTags(table) && p <= |Runes(table, body)|
    requires var x := Text(Runes(table, body)[p..]); x != "" && Ascii(x[0])
    ensures var i := |Text(Runes(table, body)[..p])|;
      && i <= |body| && body[i..] == Text(Runes(table, body)[p..])
      && ToLower(table, body[..i]) == Lowered(Runes(table, body)[..p])
  {
    var runes := Runes(table, body);
    var a, x := Text(runes[..p]), Text(runes[p..]);
    assert runes == runes[..p] + runes[p..];
    Joins(runes[..p], runes[p..]);
    assert body[..|a|] == a && body[|a|..] == x;
    Separates(table, a, x);
    RunesAreSound(table, body);
    var q := |Runes(table, a)|;
    assert runes[..q] == Runes(table, a);
    if p < q {
      PlaceOfRune(runes, p, q);
    } else if q < p {
      PlaceOfRune(runes, q, p);
    }
  }

  lemma TextOrigin(table: Table, body: string, t: string, j: nat) returns (i: nat)
    requires KeepsTags(table) && t != "" && AllTagBytes(t) && At(ToLower(table, body), t, j)
    ensures i + |t| <= |body| && AsciiLower(body[i..i + |t|]) == t && |ToLower(table, body[..i])| == j
  {
    var runes := Runes(table, body);
    RunesAreSound(table, body);
    var p := Origin(runes, t, j);
    StartsAlike(runes[p..], t);
    StartIsAscii(Text(runes[p..]), t);
    RunesBefore(table, body, p);
    i := |Text(runes[..p])|;
    SameStart(body, i, t);
  }

  lemma StartIsAscii(x: string, t: string)
    requires t != "" && |t| <= |x| && AsciiLower(x[..|t|]) == t && TagByte(t[0])
    ensures Ascii(x[0])
  {
    assert LowerByte(x[0]) == AsciiLower(x[..|t|])[0];
  }

  lemma SameStart(body: string, i: nat, t: string)
    requires i <= |body| && |t| <= |body[i..]| && AsciiLower(body[i..][..|t|]) == t
    ensures AsciiLower(body[i..i + |t|]) == t
  {
    assert body[i..i + |t|] == body[i..][..|t|];
  }

  lemma EndTagIsPlain()
    ensures AllTagBytes(BODY_END) && AsciiLower(BODY_END) == BODY_END
  {
  }

  /** An end tag of the lower case comes from one of the body. */
  lemma TagOrigin(table: Table, body: string, j: nat) returns (i: nat)
    requires KeepsTags(table) && At(ToLower(table, body), BODY_END, j)
    ensures EndTagAt(body, i) && |ToLower(table, body[..i])| == j
  {
    EndTagIsPlain();
    i := TextOrigin(table, body, BODY_END, j);
  }

  /** What comes before a later end tag is longer, also when lower-cased. */
  lemma LongerBefore(table: Table, body: string, i: nat, k: nat)
    requires KeepsTags(table) && EndTagAt(body, i) && EndTagAt(body, k) && i < k
    ensures |ToLower(table, body[..i])| < |ToLower(table, body[..k])|
  {
    TagIsAscii(body, i);
    var a, x := body[..i], body[i..k];
    assert body[..k] == a + x && x == [body[i]] + x[1..];
    LowerSeparates(table, a, x);
    AsciiFirst(table, body[i], x[1..]);
  }

  ghost predicate LastEndTag(body: string, i: int) {
    EndTagAt(body, i) && forall j :: i < j ==> !EndTagAt(body, j)
  }

  /** The position found is the length of the lower case of what comes before the last end tag. */
  lemma FoundPosition(table: Table, body: string)
    requires KeepsTags(table)
    ensures var found := LastIndex(ToLower(table, body), BODY_END);
      && (found.None? ==> forall j :: !EndTagAt(body, j))
      && (found.Some? ==> exists i: nat :: LastEndTag(body, i) && found.value == |ToLower(table, body[..i])|)
  {
    var low := ToLower(table, body);
    var found := LastIndex(low, BODY_END);
    if found.None? {
      forall j: nat ensures !EndTagAt(body, j) {
        if EndTagAt(body, j) {
          TagImage(table, body, j);
        }
      }
    } else {
      var i := TagOrigin(table, body, found.value);
      forall j: nat | i < j ensures !EndTagAt(body, j) {
        if EndTagAt(body, j) {
          TagImage(table, body, j);
          LongerBefore(table, body, i, j);
        }
      }
      assert LastEndTag(body, i);
    }
  }

  lemma FoundIsLast(table: Table, body: string, i: nat)
    requires KeepsTags(table) && LastEndTag(body, i)
    ensures LastIndex(ToLower(table, body), BODY_END) == Some(|ToLower(table, body[..i])|)
  {
    FoundPosition(table, body);
    assert EndTagAt(body, i);
    var found := LastIndex(ToLower(table, body), BODY_END);
    if found.Some? {
      var k: nat :| LastEndTag(body, k) && found.value == |ToLower(table, body[..k])|;
      assert k == i;
    }
  }

  // ----- What is sent -----

  const TAG_CLOSE := "\" defer></script>"

  /** The tag does not start again within itself. */
  lemma OneOpening(d: nat)
    requires 0 < d < |TAG|
    ensures TAG[d] == TAG[0] ==> d + 1 < |TAG| && TAG[d + 1] != TAG[1]
  {
    assert TAG == TAG_OPEN + (MARKER + TAG_CLOSE);
    var m, n := |TAG_OPEN|, |TAG_OPEN| + |MARKER|;
    if d < m {
      assert TAG[d] == TAG_OPEN[d];
    } else if d < n {
      assert TAG[d] == MARKER[d - m];
    } else {
      assert TAG[d] == TAG_CLOSE[d - n];
    }
  }

  function Inserted(body: string, i: nat): string
    requires i <= |body|
  {
    body[..i] + TAG + body[i..]
  }

  lemma NearPlacesDiffer(body: string, i: nat, k: nat)
    requires i < k <= |body| && k < i + |TAG|
    ensures Inserted(body, i) != Inserted(body, k)
  {
    var d := k - i;
    var near, far := Inserted(body, i), Inserted(body, k);
    assert near[k] == TAG[d] && far[k] == TAG[0] && far[k + 1] == TAG[1];
    assert d + 1 < |TAG| ==> near[k + 1] == TAG[d + 1];
    OneOpening(d);
  }

  /** In a body without the tag, different places give different results. */
  lemma PlacesDiffer(body: string, i: nat, k: nat)
    requires i < k <= |body| && !Contains(body, TAG)
    ensures Inserted(body, i) != Inserted(body, k)
  {
    if k < i + |TAG| {
      NearPlacesDiffer(body, i, k);
    } else {
      assert Inserted(body, k)[i..i + |TAG|] == body[i..i + |TAG|];
      assert !At(body, TAG, i);
      assert Inserted(body, i)[i..i + |TAG|] == TAG;
    }
  }

  /** Main result, for every body without the tag: with no end tag it goes to the end. Otherwise, if what comes
      before the last end tag is longer than the whole body once lower-cased, injection panics; and the tag goes right
      before that end tag exactly when lower-casing keeps the length of what comes before it. */
  lemma PlacedIff(table: Table, body: string)
    requires KeepsTags(table) && !Contains(body, TAG)
    ensures (forall j :: !EndTagAt(body, j)) ==> InjectHTML(Lower(table), body) == Some(body + TAG)
    ensures forall i: nat :: LastEndTag(body, i) ==>
      && (InjectHTML(Lower(table), body).None? <==> |ToLower(table, body[..i])| > |body|)
      && (InjectHTML(Lower(table), body) == Some(Inserted(body, i)) <==> |ToLower(table, body[..i])| == i)
  {
    FoundPosition(table, body);
    forall i: nat | LastEndTag(body, i)
      ensures InjectHTML(Lower(table), body).None? <==> |ToLower(table, body[..i])| > |body|
      ensures InjectHTML(Lower(table), body) == Some(Inserted(body, i)) <==> |ToLower(table, body[..i])| == i
    {
      PlacedAt(table, body, i);
    }
  }

  lemma PlacedAt(table: Table, body: string, i: nat)
    requires KeepsTags(table) && !Contains(body, TAG) && LastEndTag(body, i)
    ensures InjectHTML(Lower(table), body).None? <==> |ToLower(table, body[..i])| > |body|
    ensures InjectHTML(Lower(table), body) == Some(Inserted(body, i)) <==> |ToLower(table, body[..i])| == i
  {
    FoundIsLast(table, body, i);
    var p := |ToLower(table, body[..i])|;
    assert InjectHTML(Lower(table), body) == if p > |body| then None else Some(Inserted(body, p));
    if p < i {
      PlacesDiffer(body, p, i);
    } else if i < p <= |body| {
      PlacesDiffer(body, i, p);
    }
  }

  // ----- Pages on which it goes wrong -----

  lemma LetterThenText(table: Table, letter: string, rest: string)
    requires |letter| == 2 && '\U{C2}' <= letter[0] <= '\U{DF}' && Tail(letter[1])
    ensures ToLower(table, letter + rest) == table(letter) + ToLower(table, rest)
  {
    var s := letter + rest;
    assert s[0] == letter[0] && s[1] == letter[1] && Width(s) == 2;
    assert s[..2] == letter && s[2..] == rest;
  }

  lemma EndsInTag(a: string)
    ensures LastEndTag(a + BODY_END, |a|)
  {
    assert (a + BODY_END)[|a|..|a| + |BODY_END|] == BODY_END;
  }

  /** On a page that ends with its end tag. */
  lemma AtTheEnd(table: Table, a: string)
    requires KeepsTags(table)
    ensures var body, p := a + BODY_END, |ToLower(table, a)|;
      InjectHTML(Lower(table), body) == if p > |body| then None else Some(Inserted(body, p))
  {
    EndsInTag(a);
    FoundIsLast(table, a + BODY_END, |a|);
    assert (a + BODY_END)[..|a|] == a;
  }

  const DOTTED_I := "\U{C4}\U{B0}"

  lemma DottedIIsShorter(table: Table)
    requires table(DOTTED_I) == "i"
    ensures |ToLower(table, DOTTED_I + "</p>")| == 5
  {
    LetterThenText(table, DOTTED_I, "</p>");
    assert "</p>" + "" == "</p>";
    AsciiText(table, "</p>", "");
  }

  /** A capital dotted I (U+0130, two bytes) becomes the one byte i: the tag is put one byte early, between the p and the
      bracket of the paragraph's end tag. */
  lemma TagInsideParagraph(table: Table)
    requires KeepsTags(table) && table(DOTTED_I) == "i"
    ensures var kept := DOTTED_I + "</p";
      InjectHTML(Lower(table), kept + ">" + BODY_END) == Some(Inserted(kept + ">" + BODY_END, |kept|))
  {
    DottedIIsShorter(table);
    assert DOTTED_I + "</p" + ">" == DOTTED_I + "</p>";
    AtTheEnd(table, DOTTED_I + "</p>");
  }

  function Repeat(letter: string, n: nat): (s: string)
    requires |letter| == 2
    ensures |s| == 2 * n
  {
    if n == 0 then "" else letter + Repeat(letter, n - 1)
  }

  lemma {:induction false} LettersLower(table: Table, letter: string, n: nat)
    requires |letter| == 2 && '\U{C2}' <= letter[0] <= '\U{DF}' && Tail(letter[1]) && |table(letter)| == 3
    ensures |ToLower(table, Repeat(letter, n))| == 3 * n
    decreases n
  {
    if n > 0 {
      LetterThenText(table, letter, Repeat(letter, n - 1));
      LettersLower(table, letter, n - 1);
    }
  }

  /** A letter whose lower case is a byte longer (U+023A) shifts the tag the other way: eight of them before the end tag
      are enough for a panic. */
  lemma LettersPanic(table: Table, letter: string, n: nat)
    requires |letter| == 2 && '\U{C2}' <= letter[0] <= '\U{DF}' && Tail(letter[1]) && |table(letter)| == 3
    requires KeepsTags(table)
    ensures InjectHTML(Lower(table), Repeat(letter, n) + BODY_END).None? <==> n > |BODY_END|
  {
    AtTheEnd(table, Repeat(letter, n));
    LettersLower(table, letter, n);
  }
}
