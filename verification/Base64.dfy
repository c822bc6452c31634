/** Unpadded base64, section 4 of RFC 4648 with the padding dropped as section 3.2 allows; the decoder is lenient
    as the Go library's raw standard encoding is: line breaks are skipped and spare low bits ignored. */
module Base64 {
  import opened Common

  type Byte = b: int | 0 <= b < 256

  /** Neither a line break nor a separator of the hash text. */
  predicate Plain(c: char) { c != '\r' && c != '\n' && c != '$' && c != ',' }

  /** The character of a value below 64. */
  function Symbol(v: int): (c: char)
    requires 0 <= v < 64
    ensures Plain(c)
  {
    if v < 26 then 'A' + v as char
    else if v < 52 then 'a' + (v - 26) as char
    else if v < 62 then '0' + (v - 52) as char
    else if v == 62 then '+' else '/'
  }

  function Value(c: char): Option<int> {
    if 'A' <= c <= 'Z' then Some((c - 'A') as int)
    else if 'a' <= c <= 'z' then Some((c - 'a') as int + 26)
    else if '0' <= c <= '9' then Some((c - '0') as int + 52)
    else if c == '+' then Some(62)
    else if c == '/' then Some(63)
    else None
  }

  lemma ValueOfSymbol(v: int)
    requires 0 <= v < 64
    ensures Value(Symbol(v)) == Some(v)
  {
  }

  function High(x: Byte): (v: int) ensures 0 <= v < 64 { x / 4 }

  function Cross(x: Byte, y: Byte): (v: int) ensures 0 <= v < 64 { x % 4 * 16 + y / 16 }

  function Across(y: Byte, z: Byte): (v: int) ensures 0 <= v < 64 { y % 16 * 4 + z / 64 }

  function Low(z: Byte): (v: int) ensures 0 <= v < 64 { z % 64 }

  /** Three bytes make four values below 64; one or two left over make two or three. */
  function Sextets(bytes: seq<Byte>): (v: seq<int>)
    ensures forall i :: 0 <= i < |v| ==> 0 <= v[i] < 64
  {
    if bytes == [] then []
    else if |bytes| == 1 then [High(bytes[0]), Cross(bytes[0], 0)]
    else if |bytes| == 2 then [High(bytes[0]), Cross(bytes[0], bytes[1]), Across(bytes[1], 0)]
    else
      [High(bytes[0]), Cross(bytes[0], bytes[1]), Across(bytes[1], bytes[2]), Low(bytes[2])] + Sextets(bytes[3..])
  }

  function Symbols(v: seq<int>): (s: string)
    requires forall i :: 0 <= i < |v| ==> 0 <= v[i] < 64
    ensures |s| == |v|
  {
    if v == [] then "" else [Symbol(v[0])] + Symbols(v[1..])
  }

  function Encode(bytes: seq<Byte>): string { Symbols(Sextets(bytes)) }

  function SkipBreaks(s: string): (r: string)
    ensures forall i :: 0 <= i < |r| ==> r[i] != '\r' && r[i] != '\n'
    ensures '\r' !in s && '\n' !in s ==> r == s
  {
    if s == "" then ""
    else (if s[0] == '\r' || s[0] == '\n' then "" else [s[0]]) + SkipBreaks(s[1..])
  }

  function First(a: int, b: int): (r: Byte)
    requires 0 <= a < 64 && 0 <= b < 64
  {
    a * 4 + b / 16
  }

  function Second(b: int, c: int): (r: Byte)
    requires 0 <= b < 64 && 0 <= c < 64
  {
    b % 16 * 16 + c / 4
  }

  function Third(c: int, d: int): (r: Byte)
    requires 0 <= c < 64 && 0 <= d < 64
  {
    c % 4 * 64 + d
  }

  function Values(s: string): (r: Option<seq<int>>)
    ensures r.Some? ==> |r.value| == |s| && forall i :: 0 <= i < |s| ==> 0 <= r.value[i] < 64
  {
    if s == "" then Some([]) else
    match (Value(s[0]), Values(s[1..]))
    case (Some(v), Some(rest)) => Some([v] + rest)
    case _ => None
  }

  /** A single character left over is an error. */
  function Regroup(v: seq<int>): Option<seq<Byte>>
    requires forall i :: 0 <= i < |v| ==> 0 <= v[i] < 64
  {
    if v == [] then Some([])
    else if |v| == 1 then None
    else if |v| == 2 then Some([First(v[0], v[1])])
    else if |v| == 3 then Some([First(v[0], v[1]), Second(v[1], v[2])])
    else match Regroup(v[4..])
      case None => None
      case Some(rest) => Some([First(v[0], v[1]), Second(v[1], v[2]), Third(v[2], v[3])] + rest)
  }

  function Decode(s: string): Option<seq<Byte>> {
    match Values(SkipBreaks(s))
    case None => None
    case Some(v) => Regroup(v)
  }

  // ----- Decoding undoes encoding -----

  lemma BytesComeBack(x: Byte, y: Byte, z: Byte)
    ensures First(High(x), Cross(x, y)) == x
    ensures Second(Cross(x, y), Across(y, z)) == y
    ensures Third(Across(y, z), Low(z)) == z
  {
  }

  lemma {:induction false} SymbolsArePlain(v: seq<int>)
    requires forall i :: 0 <= i < |v| ==> 0 <= v[i] < 64
    ensures forall i :: 0 <= i < |v| ==> Plain(Symbols(v)[i])
    decreases |v|
  {
    if v != [] {
      SymbolsArePlain(v[1..]);
    }
  }

  lemma {:induction false} ValuesUndoSymbols(v: seq<int>)
    requires forall i :: 0 <= i < |v| ==> 0 <= v[i] < 64
    ensures Values(Symbols(v)) == Some(v)
    decreases |v|
  {
    if v != [] {
      var s, first, rest := Symbols(v), v[0], v[1..];
      assert v == [first] + rest;
      ValuesUndoSymbols(rest);
      ValueOfSymbol(first);
      assert s[0] == Symbol(first) && s[1..] == Symbols(rest);
    }
  }

  lemma RegroupFour(a: int, b: int, c: int, d: int, rest: seq<int>)
    requires 0 <= a < 64 && 0 <= b < 64 && 0 <= c < 64 && 0 <= d < 64
    requires (forall i :: 0 <= i < |rest| ==> 0 <= rest[i] < 64) && Regroup(rest).Some?
    ensures Regroup([a, b, c, d] + rest) == Some([First(a, b), Second(b, c), Third(c, d)] + Regroup(rest).value)
  {
    assert ([a, b, c, d] + rest)[4..] == rest;
  }

  lemma SextetsOfThree(x: Byte, y: Byte, z: Byte, rest: seq<Byte>)
    ensures Sextets([x, y, z] + rest) == [High(x), Cross(x, y), Across(y, z), Low(z)] + Sextets(rest)
  {
  }

  lemma ThreeComeBack(x: Byte, y: Byte, z: Byte, rest: seq<Byte>)
    requires Regroup(Sextets(rest)) == Some(rest)
    ensures Regroup(Sextets([x, y, z] + rest)) == Some([x, y, z] + rest)
  {
    SextetsOfThree(x, y, z, rest);
    RegroupFour(High(x), Cross(x, y), Across(y, z), Low(z), Sextets(rest));
    BytesComeBack(x, y, z);
  }

  lemma OneComesBack(x: Byte)
    ensures Regroup(Sextets([x])) == Some([x])
  {
  }

  lemma TwoComeBack(x: Byte, y: Byte)
    ensures Regroup(Sextets([x, y])) == Some([x, y])
  {
  }

  lemma {:induction false} RegroupUndoesSextets(bytes: seq<Byte>)
    ensures Regroup(Sextets(bytes)) == Some(bytes)
    decreases |bytes|
  {
    if |bytes| == 1 {
      OneComesBack(bytes[0]);
      assert bytes == [bytes[0]];
    } else if |bytes| == 2 {
      TwoComeBack(bytes[0], bytes[1]);
      assert bytes == [bytes[0], bytes[1]];
    } else if |bytes| >= 3 {
      RegroupUndoesSextets(bytes[3..]);
      ThreeComeBack(bytes[0], bytes[1], bytes[2], bytes[3..]);
      assert bytes == [bytes[0], bytes[1], bytes[2]] + bytes[3..];
    }
  }

  /** Main result: decoding undoes encoding, and the encoding stays within its alphabet. */
  lemma DecodeUndoesEncode(bytes: seq<Byte>)
    ensures Decode(Encode(bytes)) == Some(bytes)
    ensures forall i :: 0 <= i < |Encode(bytes)| ==> Plain(Encode(bytes)[i])
  {
    SymbolsArePlain(Sextets(bytes));
    ValuesUndoSymbols(Sextets(bytes));
    RegroupUndoesSextets(bytes);
    assert '\r' !in Encode(bytes) && '\n' !in Encode(bytes);
  }

  lemma FourFewer(n: nat)
    requires n >= 4
    ensures (n - 4) % 4 == n % 4 && 3 + (n - 4) * 3 / 4 == n * 3 / 4
  {
  }

  lemma {:induction false} RegroupIff(v: seq<int>)
    requires forall i :: 0 <= i < |v| ==> 0 <= v[i] < 64
    ensures Regroup(v).Some? <==> |v| % 4 != 1
    ensures Regroup(v).Some? ==> |Regroup(v).value| == |v| * 3 / 4
    decreases |v|
  {
    if |v| >= 4 {
      FourFewer(|v|);
      RegroupIff(v[4..]);
    }
  }

  lemma {:induction false} ValuesIff(s: string)
    ensures Values(s).Some? <==> forall c :: c in s ==> Value(c).Some?
    decreases |s|
  {
    if s != "" {
      ValuesIff(s[1..]);
      assert forall c :: c in s <==> c == s[0] || c in s[1..];
    }
  }

  /** What decodes, line breaks aside: text of the alphabet whose length is not one more than a multiple of four. */
  lemma DecodesIff(s: string)
    ensures var t := SkipBreaks(s);
      && (Decode(s).Some? <==> |t| % 4 != 1 && forall c :: c in t ==> Value(c).Some?)
      && (Decode(s).Some? ==> |Decode(s).value| == |t| * 3 / 4)
  {
    var t := SkipBreaks(s);
    ValuesIff(t);
    if Values(t).Some? {
      RegroupIff(Values(t).value);
    }
  }

  /** The examples of section 10 of RFC 4648, without their padding. */
  lemma RfcExamples()
    ensures Encode([]) == "" && Encode([0x66]) == "Zg" && Encode([0x66, 0x6f]) == "Zm8"
    ensures Encode([0x66, 0x6f, 0x6f]) == "Zm9v" && Encode([0x66, 0x6f, 0x6f, 0x62]) == "Zm9vYg"
  {
  }
}
