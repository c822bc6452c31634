/** Lower-casing of text held as bytes, as bytes.ToLower does it: the text is cut into runes and each is replaced by
    its lower case, which may be longer or shorter. A byte is written as a character below 256. */
module Lowering {

  predicate Ascii(c: char) { c < '\U{80}' }

  function LowerByte(c: char): char { if 'A' <= c <= 'Z' then c + ' ' else c }

  /** Byte by byte; all there is to do in ASCII text. */
  function AsciiLower(s: string): (r: string)
    ensures |r| == |s| && forall i :: 0 <= i < |s| ==> r[i] == LowerByte(s[i])
  {
    seq(|s|, i requires 0 <= i < |s| => LowerByte(s[i]))
  }

  /** A rune of a text, with its lower case. */
  datatype Rune = Rune(bytes: string, lower: string)

  function Text(runes: seq<Rune>): string {
    if runes == [] then "" else runes[0].bytes + Text(runes[1..])
  }

  function Lowered(runes: seq<Rune>): string {
    if runes == [] then "" else runes[0].lower + Lowered(runes[1..])
  }

  lemma Assoc<T>(a: seq<T>, b: seq<T>, c: seq<T>)
    ensures a + (b + c) == a + b + c
  {
  }

  lemma {:induction false} Joins(a: seq<Rune>, b: seq<Rune>)
    ensures Text(a + b) == Text(a) + Text(b) && Lowered(a + b) == Lowered(a) + Lowered(b)
    decreases |a|
  {
    if a == [] {
      assert a + b == b;
    } else {
      var first, rest := a[0], a[1..];
      assert (a + b)[0] == first && (a + b)[1..] == rest + b;
      Joins(rest, b);
      Assoc(first.bytes, Text(rest), Text(b));
      Assoc(first.lower, Lowered(rest), Lowered(b));
    }
  }

  // ----- UTF-8 -----

  predicate Tail(c: char) { '\U{80}' <= c <= '\U{BF}' }

  /** How many bytes a rune with this first byte has; one for a byte that starts none. */
  function Announced(c: char): nat {
    if '\U{C2}' <= c <= '\U{DF}' then 2
    else if '\U{E0}' <= c <= '\U{EF}' then 3
    else if '\U{F0}' <= c <= '\U{F4}' then 4
    else 1
  }

  /** Second bytes that give neither an overlong form, a surrogate nor a value out of range. */
  predicate Follows(first: char, second: char) {
    && Tail(second)
    && (first == '\U{E0}' ==> '\U{A0}' <= second) && (first == '\U{ED}' ==> second <= '\U{9F}')
    && (first == '\U{F0}' ==> '\U{90}' <= second) && (first == '\U{F4}' ==> second <= '\U{8F}')
  }

  /** The bytes of the first rune; a byte that starts no valid rune counts as one. */
  function Width(s: string): (w: nat)
    requires s != ""
    ensures 1 <= w <= |s| && (Ascii(s[0]) ==> w == 1)
    ensures forall i :: 1 <= i < w ==> !Ascii(s[i])
  {
    var n := Announced(s[0]);
    if 1 < n <= |s| && Follows(s[0], s[1]) && (n >= 3 ==> Tail(s[2])) && (n == 4 ==> Tail(s[3])) then n else 1
  }

  const REPLACEMENT := "\U{EF}\U{BF}\U{BD}"

  /** The lower case of each rune of several bytes, both given by their encodings. */
  type Table = string -> string

  /** An invalid byte becomes the replacement character. */
  function LowerRune(table: Table, r: string): string
    requires r != ""
  {
    if Ascii(r[0]) then [LowerByte(r[0])] else if |r| == 1 then REPLACEMENT else table(r)
  }

  function Runes(table: Table, s: string): (runes: seq<Rune>)
    ensures Text(runes) == s
  {
    if s == "" then [] else
    var w := Width(s);
    [Rune(s[..w], LowerRune(table, s[..w]))] + Runes(table, s[w..])
  }

  function ToLower(table: Table, s: string): string { Lowered(Runes(table, s)) }

  /** A rune does not reach past an ASCII byte. */
  lemma WidthStays(a: string, x: string)
    requires a != "" && (x == "" || Ascii(x[0]))
    ensures Width(a + x) == Width(a)
  {
    var s := a + x;
    assert forall i :: 0 <= i < |a| ==> s[i] == a[i];
    assert x != "" ==> s[|a|] == x[0];
  }

  lemma FirstRuneStays(table: Table, a: string, x: string)
    requires a != "" && (x == "" || Ascii(x[0]))
    ensures Runes(table, a + x) == [Runes(table, a)[0]] + Runes(table, a[Width(a)..] + x)
  {
    WidthStays(a, x);
    var w := Width(a);
    assert (a + x)[..w] == a[..w] && (a + x)[w..] == a[w..] + x;
  }

  /** Text can be cut before any ASCII byte and its sides taken on their own. */
  lemma {:induction false} Separates(table: Table, a: string, x: string)
    requires x == "" || Ascii(x[0])
    ensures Runes(table, a + x) == Runes(table, a) + Runes(table, x)
    decreases |a|
  {
    if a == "" {
      assert a + x == x;
    } else {
      FirstRuneStays(table, a, x);
      Separates(table, a[Width(a)..], x);
      Assoc([Runes(table, a)[0]], Runes(table, a[Width(a)..]), Runes(table, x));
    }
  }

  lemma LowerSeparates(table: Table, a: string, x: string)
    requires x == "" || Ascii(x[0])
    ensures ToLower(table, a + x) == ToLower(table, a) + ToLower(table, x)
  {
    Separates(table, a, x);
    Joins(Runes(table, a), Runes(table, x));
  }

  lemma AsciiFirst(table: Table, b: char, rest: string)
    requires Ascii(b)
    ensures ToLower(table, [b] + rest) == [LowerByte(b)] + ToLower(table, rest)
  {
    var s := [b] + rest;
    assert s[..1] == [b] && s[1..] == rest;
  }

  lemma AsciiLowerFirst(b: char, rest: string)
    ensures AsciiLower([b] + rest) == [LowerByte(b)] + AsciiLower(rest)
  {
  }

  /** ASCII text becomes its ASCII lower case, byte for byte. */
  lemma {:induction false} AsciiText(table: Table, t: string, rest: string)
    requires forall i :: 0 <= i < |t| ==> Ascii(t[i])
    ensures ToLower(table, t + rest) == AsciiLower(t) + ToLower(table, rest)
    decreases |t|
  {
    if t == "" {
      assert t + rest == rest;
    } else {
      var b, more := t[0], t[1..];
      assert t == [b] + more && t + rest == [b] + (more + rest);
      AsciiFirst(table, b, more + rest);
      AsciiText(table, more, rest);
      AsciiLowerFirst(b, more);
    }
  }

  // ----- The bytes of a rune are those of section 3 of RFC 3629 -----

  predicate Scalar(cp: int) { 0 <= cp <= 0x10FFFF && !(0xD800 <= cp <= 0xDFFF) }

  /** The encoding of a code point. */
  function Utf8(cp: int): string
    requires Scalar(cp)
  {
    if cp < 0x80 then [cp as char]
    else if cp < 0x800 then [(0xC0 + cp / 64) as char, (0x80 + cp % 64) as char]
    else if cp < 0x10000 then [(0xE0 + cp / 4096) as char, (0x80 + cp / 64 % 64) as char, (0x80 + cp % 64) as char]
    else [(0xF0 + cp / 262144) as char, (0x80 + cp / 4096 % 64) as char, (0x80 + cp / 64 % 64) as char, (0x80 + cp % 64) as char]
  }

  lemma EncodedThree(cp: int, rest: string)
    requires Scalar(cp) && 0x800 <= cp < 0x10000
    ensures Width(Utf8(cp) + rest) == 3
  {
    var u, s := Utf8(cp), Utf8(cp) + rest;
    assert s[0] == u[0] && s[1] == u[1] && s[2] == u[2];
    var a, b := cp / 4096, cp / 64 % 64;
    assert 4096 * a + 64 * b <= cp < 4096 * a + 64 * b + 64 && 0 <= a < 16 && 0 <= b < 64;
    assert Announced(s[0]) == 3;
    assert a == 0 ==> b >= 32;
    assert a == 13 ==> b < 32;
    assert Follows(s[0], s[1]) && Tail(s[2]);
  }

  lemma EncodedFour(cp: int, rest: string)
    requires 0x10000 <= cp <= 0x10FFFF
    ensures Width(Utf8(cp) + rest) == 4
  {
    var u, s := Utf8(cp), Utf8(cp) + rest;
    assert s[0] == u[0] && s[1] == u[1] && s[2] == u[2] && s[3] == u[3];
    var a, b := cp / 262144, cp / 4096 % 64;
    assert 262144 * a + 4096 * b <= cp < 262144 * a + 4096 * b + 4096 && 0 <= a < 5 && 0 <= b < 64;
    assert Announced(s[0]) == 4;
    assert a == 0 ==> b >= 16;
    assert a == 4 ==> b < 16;
    assert Follows(s[0], s[1]) && Tail(s[2]) && Tail(s[3]);
  }

  lemma EncodedIsOneRune(cp: int, rest: string)
    requires Scalar(cp)
    ensures Width(Utf8(cp) + rest) == |Utf8(cp)|
  {
    if cp < 0x800 {
      var u, s := Utf8(cp), Utf8(cp) + rest;
      assert s[0] == u[0] && (cp >= 0x80 ==> s[1] == u[1]);
    } else if cp < 0x10000 {
      EncodedThree(cp, rest);
    } else {
      EncodedFour(cp, rest);
    }
  }

  lemma TwoDigits(a: nat, b: nat)
    requires b < 64
    ensures (64 * a + b) / 64 == a && (64 * a + b) % 64 == b
  {
  }

  lemma ThreeDigits(a: nat, b: nat, c: nat)
    requires b < 64 && c < 64
    ensures var n := 4096 * a + 64 * b + c; n / 4096 == a && n / 64 % 64 == b && n % 64 == c
  {
    assert 4096 * a + 64 * b + c == 64 * (64 * a + b) + c;
    TwoDigits(64 * a + b, c);
    TwoDigits(a, b);
  }

  lemma FourDigits(a: nat, b: nat, c: nat, d: nat)
    requires b < 64 && c < 64 && d < 64
    ensures var n := 262144 * a + 4096 * b + 64 * c + d;
      n / 262144 == a && n / 4096 % 64 == b && n / 64 % 64 == c && n % 64 == d
  {
    var n := 262144 * a + 4096 * b + 64 * c + d;
    assert n == 64 * (4096 * a + 64 * b + c) + d;
    TwoDigits(4096 * a + 64 * b + c, d);
    ThreeDigits(a, b, c);
  }

  /** The digit a later byte of a rune carries. */
  function Digit(c: char): int { c as int - 0x80 }

  lemma EncodesThree(s: string, cp: int)
    requires s != "" && Width(s) == 3
    requires cp == 4096 * (s[0] as int - 0xE0) + 64 * Digit(s[1]) + Digit(s[2])
    ensures Scalar(cp) && Utf8(cp) == s[..3]
  {
    ThreeDigits(s[0] as int - 0xE0, Digit(s[1]), Digit(s[2]));
    assert 0x800 <= cp < 0x10000 && !(0xD800 <= cp <= 0xDFFF);
    assert Utf8(cp)[0] == s[0] && Utf8(cp)[1] == s[1] && Utf8(cp)[2] == s[2];
  }

  lemma EncodesFour(s: string, cp: int)
    requires s != "" && Width(s) == 4
    requires cp == 262144 * (s[0] as int - 0xF0) + 4096 * Digit(s[1]) + 64 * Digit(s[2]) + Digit(s[3])
    ensures Scalar(cp) && Utf8(cp) == s[..4]
  {
    FourDigits(s[0] as int - 0xF0, Digit(s[1]), Digit(s[2]), Digit(s[3]));
    assert 0x10000 <= cp <= 0x10FFFF;
    assert Utf8(cp)[0] == s[0] && Utf8(cp)[1] == s[1] && Utf8(cp)[2] == s[2] && Utf8(cp)[3] == s[3];
  }

  lemma RuneIsEncoded(s: string) returns (cp: int)
    requires s != "" && (Width(s) > 1 || Ascii(s[0]))
    ensures Scalar(cp) && Utf8(cp) == s[..Width(s)]
  {
    var w := Width(s);
    if w == 1 {
      cp := s[0] as int;
    } else if w == 2 {
      cp := 64 * (s[0] as int - 0xC0) + Digit(s[1]);
      TwoDigits(s[0] as int - 0xC0, Digit(s[1]));
    } else if w == 3 {
      cp := 4096 * (s[0] as int - 0xE0) + 64 * Digit(s[1]) + Digit(s[2]);
      EncodesThree(s, cp);
    } else {
      cp := 262144 * (s[0] as int - 0xF0) + 4096 * Digit(s[1]) + 64 * Digit(s[2]) + Digit(s[3]);
      EncodesFour(s, cp);
    }
  }

  /** Main result: the first rune of a text is the encoding it begins with, if it begins with one, and a single byte
      otherwise. */
  lemma FirstRuneIff(s: string, w: nat)
    requires s != ""
    ensures Width(s) == w
      <==> (exists cp :: Scalar(cp) && Utf8(cp) <= s && |Utf8(cp)| == w)
           || (w == 1 && forall cp :: Scalar(cp) ==> !(Utf8(cp) <= s))
  {
    forall cp | Scalar(cp) && Utf8(cp) <= s ensures Width(s) == |Utf8(cp)| {
      assert s == Utf8(cp) + s[|Utf8(cp)|..];
      EncodedIsOneRune(cp, s[|Utf8(cp)|..]);
    }
    if Width(s) > 1 || Ascii(s[0]) {
      var cp := RuneIsEncoded(s);
      assert Scalar(cp) && Utf8(cp) <= s;
    }
  }
}
