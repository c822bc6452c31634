/** Password hashes as text, irmik/auth/password.go. The key derivation and bcrypt are taken as functions; what is
    modelled is the printing and reading of their parameters and results. */
module Password {
  import opened Common
  import opened Decimals
  import opened Strings
  import opened Base64

  const TWO_TO_THE_32: int := 0x1_0000_0000
  type U32 = n: int | 0 <= n < TWO_TO_THE_32
  type U8 = n: int | 0 <= n < 256

  const BCRYPT := "bcrypt"
  const ARGON := "argon2id"
  const DEFAULT_COST := 10

  datatype Options =
    Options(algo: string, bcryptCost: int, time: U32, memory: U32, threads: U8, keyLen: U32)

  function WithDefaults(o: Options): Options {
    Options(
      if o.algo == "" then ARGON else o.algo,
      if o.bcryptCost == 0 then DEFAULT_COST else o.bcryptCost,
      if o.time == 0 then 1 else o.time,
      if o.memory == 0 then 64 * 1024 else o.memory,
      if o.threads == 0 then 4 else o.threads,
      if o.keyLen == 0 then 32 else o.keyLen)
  }

  /** The cryptographic libraries. None is a failure of bcrypt, or a run-time panic of the key derivation. */
  datatype Library = Library(
    bcryptHash: (string, int) -> Option<string>,
    bcryptMatch: (string, string) -> bool,
    kdf: (string, seq<Byte>, U32, U32, U8, U32) -> Option<seq<Byte>>)

  /** Given at least one pass, one thread and one byte to make, the key derivation yields as many bytes as asked. */
  ghost predicate DerivesKeys(lib: Library) {
    forall pw, salt, t, m, p, n | t >= 1 && p >= 1 && n >= 1 ::
      lib.kdf(pw, salt, t, m, p, n).Some? && |lib.kdf(pw, salt, t, m, p, n).value| == n
  }

  ghost predicate BcryptAccepts(lib: Library) {
    forall pw, cost :: lib.bcryptHash(pw, cost).Some? ==> lib.bcryptMatch(lib.bcryptHash(pw, cost).value, pw)
  }

  datatype Hashed = Hashed(text: string) | RandomFailed | BcryptFailed | UnknownAlgo | HashPanics

  datatype Verdict = Accepted | Rejected | Panics

  // ----- Printing -----

  function Params(m: U32, t: U32, p: U8): string {
    "m=" + Decimal(m) + ",t=" + Decimal(t) + ",p=" + Decimal(p)
  }

  function ArgonText(m: U32, t: U32, p: U8, salt: seq<Byte>, key: seq<Byte>): string {
    Join([ARGON, "v=19", Params(m, t, p), Encode(salt), Encode(key)], '$')
  }

  function HashPassword(lib: Library, pw: string, opts: Options, random: Option<seq<Byte>>): Hashed {
    var o := WithDefaults(opts);
    if o.algo == BCRYPT then
      match lib.bcryptHash(pw, o.bcryptCost)
      case None => BcryptFailed
      case Some(b) => Hashed("bcrypt$" + b)
    else if o.algo == ARGON then
      if random.None? then RandomFailed else
      match lib.kdf(pw, random.value, o.time, o.memory, o.threads, o.keyLen)
      case None => HashPanics
      case Some(key) => Hashed(ArgonText(o.memory, o.time, o.threads, random.value, key))
    else UnknownAlgo
  }

  // ----- Reading -----

  /** Blanks before a number are skipped; a line feed there is an error. */
  function SkipSpace(s: string): Option<string> {
    if s == "" then Some(s)
    else if s[0] == '\n' then None
    else if IsSpace(s[0]) then SkipSpace(s[1..])
    else Some(s)
  }

  /** The length of the run of digits at the head. */
  function Run(s: string): (n: nat)
    ensures n <= |s| && (forall i :: 0 <= i < n ==> '0' <= s[i] <= '9')
    ensures n < |s| ==> !('0' <= s[n] <= '9')
  {
    if s == "" || !('0' <= s[0] <= '9') then 0 else 1 + Run(s[1..])
  }

  /** A number below limit and what follows it. */
  function ScanNumber(s: string, limit: int): (r: Option<(int, string)>)
    ensures r.Some? ==> 0 <= r.value.0 < limit
  {
    match SkipSpace(s)
    case None => None
    case Some(r) =>
      var n := Run(r);
      if n == 0 || Number(r[..n]) >= limit then None else Some((Number(r[..n]), r[n..]))
  }

  function ScanLiteral(s: string, literal: string): Option<string> {
    if literal <= s then Some(s[|literal|..]) else None
  }

  function ScanField(s: string, literal: string, limit: int): (r: Option<(int, string)>)
    ensures r.Some? ==> 0 <= r.value.0 < limit
  {
    match ScanLiteral(s, literal)
    case None => None
    case Some(r) => ScanNumber(r, limit)
  }

  /** Whatever follows the last number is not looked at. */
  function ScanParams(s: string): Option<(U32, U32, U8)> {
    match ScanField(s, "m=", TWO_TO_THE_32)
    case None => None
    case Some((m, s1)) =>
      match ScanField(s1, ",t=", TWO_TO_THE_32)
      case None => None
      case Some((t, s2)) =>
        match ScanField(s2, ",p=", 256)
        case None => None
        case Some((p, _)) => Some((m, t, p))
  }

  /** The parts of an Argon2id text. */
  datatype Parts = Parts(m: U32, t: U32, p: U8, salt: seq<Byte>, key: seq<Byte>)

  function ReadArgon(encoded: string): Option<Parts> {
    var parts := Split(encoded, '$');
    if |parts| != 5 then None else
    match (ScanParams(parts[2]), Decode(parts[3]), Decode(parts[4]))
    case (Some((m, t, p)), Some(salt), Some(key)) => Some(Parts(m, t, p, salt, key))
    case _ => None
  }

  function CheckArgon(lib: Library, encoded: string, pw: string): Verdict {
    match ReadArgon(encoded)
    case None => Rejected
    case Some(r) =>
      match lib.kdf(pw, r.salt, r.t, r.m, r.p, |r.key| % TWO_TO_THE_32)
      case None => Panics
      case Some(got) => if got == r.key then Accepted else Rejected
  }

  function CheckPassword(lib: Library, encoded: string, pw: string): Verdict {
    if "bcrypt$" <= encoded then
      if lib.bcryptMatch(encoded[7..], pw) then Accepted else Rejected
    else if "$2a$" <= encoded || "$2b$" <= encoded || "$2y$" <= encoded then
      if lib.bcryptMatch(encoded, pw) then Accepted else Rejected
    else if "argon2id$" <= encoded then CheckArgon(lib, encoded, pw)
    else Rejected
  }

  // ----- Reading undoes printing -----

  lemma {:induction false} RunOf(digits: string, rest: string)
    requires AllDigits(digits) && (rest == "" || !('0' <= rest[0] <= '9'))
    ensures Run(digits + rest) == |digits|
    decreases |digits|
  {
    var s := digits + rest;
    assert s[1..] == digits[1..] + rest;
    if |digits| > 1 {
      RunOf(digits[1..], rest);
    }
  }

  lemma NoBlank(s: string)
    requires s != "" && '0' <= s[0] <= '9'
    ensures SkipSpace(s) == Some(s)
  {
  }

  lemma ScanDecimal(n: nat, rest: string, limit: int)
    requires n < limit && (rest == "" || !('0' <= rest[0] <= '9'))
    ensures ScanNumber(Decimal(n) + rest, limit) == Some((n, rest))
  {
    DecimalIsNumber(n);
    var digits := Decimal(n);
    var s := digits + rest;
    RunOf(digits, rest);
    assert s[..|digits|] == digits && s[|digits|..] == rest;
    NoBlank(s);
  }

  lemma ScanPrintedField(literal: string, n: nat, rest: string, limit: int)
    requires n < limit && (rest == "" || !('0' <= rest[0] <= '9'))
    ensures ScanField(literal + Decimal(n) + rest, literal, limit) == Some((n, rest))
  {
    var s := literal + Decimal(n) + rest;
    assert s[|literal|..] == Decimal(n) + rest;
    assert s[..|literal|] == literal;
    ScanDecimal(n, rest, limit);
  }

  lemma ScanParamsOfParams(m: U32, t: U32, p: U8)
    ensures ScanParams(Params(m, t, p)) == Some((m, t, p))
  {
    var s2 := ",p=" + Decimal(p) + "";
    var s1 := ",t=" + Decimal(t) + s2;
    assert Params(m, t, p) == "m=" + Decimal(m) + s1;
    ScanPrintedField("m=", m, s1, TWO_TO_THE_32);
    ScanPrintedField(",t=", t, s2, TWO_TO_THE_32);
    ScanPrintedField(",p=", p, "", 256);
  }

  lemma ParamsArePlain(m: U32, t: U32, p: U8)
    ensures '$' !in Params(m, t, p)
  {
    DecimalIsNumber(m);
    DecimalIsNumber(t);
    DecimalIsNumber(p);
    var a, b, c := Decimal(m), Decimal(t), Decimal(p);
    assert '$' !in a && '$' !in b && '$' !in c;
    NoneInAny("m=", a, ",t=", b, ",p=", c, '$');
  }

  lemma NoneInAny(u: string, a: string, v: string, b: string, w: string, c: string, sep: char)
    requires sep !in u && sep !in a && sep !in v && sep !in b && sep !in w && sep !in c
    ensures sep !in u + a + v + b + w + c
  {
  }

  /** Main result: splitting, the decimal parameters and base64 all undo their printers, so the text of any
      parameters, salt and key reads back as they were. */
  lemma ReadUndoesPrint(m: U32, t: U32, p: U8, salt: seq<Byte>, key: seq<Byte>)
    ensures ReadArgon(ArgonText(m, t, p, salt, key)) == Some(Parts(m, t, p, salt, key))
  {
    var pieces := [ARGON, "v=19", Params(m, t, p), Encode(salt), Encode(key)];
    ParamsArePlain(m, t, p);
    DecodeUndoesEncode(salt);
    DecodeUndoesEncode(key);
    SplitUndoesJoin(pieces, '$');
    ScanParamsOfParams(m, t, p);
  }

  /** So two texts are equal only if they were made from equal parts. */
  lemma TextsDiffer(a: Parts, b: Parts)
    requires ArgonText(a.m, a.t, a.p, a.salt, a.key) == ArgonText(b.m, b.t, b.p, b.salt, b.key)
    ensures a == b
  {
    ReadUndoesPrint(a.m, a.t, a.p, a.salt, a.key);
    ReadUndoesPrint(b.m, b.t, b.p, b.salt, b.key);
  }

  lemma ArgonTextHead(m: U32, t: U32, p: U8, salt: seq<Byte>, key: seq<Byte>)
    ensures "argon2id$" <= ArgonText(m, t, p, salt, key)
  {
  }

  lemma ArgonIsChecked(lib: Library, text: string, attempt: string)
    requires "argon2id$" <= text
    ensures CheckPassword(lib, text, attempt) == CheckArgon(lib, text, attempt)
  {
  }

  lemma CheckOfParts(lib: Library, text: string, r: Parts, attempt: string)
    requires ReadArgon(text) == Some(r)
    requires |r.key| < TWO_TO_THE_32 && lib.kdf(attempt, r.salt, r.t, r.m, r.p, |r.key|).Some?
    ensures CheckArgon(lib, text, attempt)
      == if lib.kdf(attempt, r.salt, r.t, r.m, r.p, |r.key|) == Some(r.key) then Accepted else Rejected
  {
    assert |r.key| % TWO_TO_THE_32 == |r.key|;
  }

  /** Main result: under Argon2id, with any options and salt, hashing succeeds and the text then accepts exactly
      the passwords from which the same key is derived; it never panics. */
  lemma AcceptsIffSameKey(lib: Library, pw: string, opts: Options, salt: seq<Byte>, attempt: string)
    requires DerivesKeys(lib) && WithDefaults(opts).algo == ARGON
    ensures HashPassword(lib, pw, opts, Some(salt)).Hashed?
    ensures var o, text := WithDefaults(opts), HashPassword(lib, pw, opts, Some(salt)).text;
      CheckPassword(lib, text, attempt)
      == if lib.kdf(attempt, salt, o.time, o.memory, o.threads, o.keyLen)
            == lib.kdf(pw, salt, o.time, o.memory, o.threads, o.keyLen) then Accepted else Rejected
  {
    var o := WithDefaults(opts);
    var key := lib.kdf(pw, salt, o.time, o.memory, o.threads, o.keyLen).value;
    var r := Parts(o.memory, o.time, o.threads, salt, key);
    assert lib.kdf(attempt, salt, o.time, o.memory, o.threads, o.keyLen).Some?;
    ReadUndoesPrint(r.m, r.t, r.p, salt, key);
    ArgonTextHead(r.m, r.t, r.p, salt, key);
    ArgonIsChecked(lib, ArgonText(r.m, r.t, r.p, salt, key), attempt);
    CheckOfParts(lib, ArgonText(r.m, r.t, r.p, salt, key), r, attempt);
  }

  /** Whatever the options, a hash that is made accepts its own password; it is made unless bcrypt refuses, the
      random source fails or the algorithm is unknown. */
  lemma OwnPasswordIsAccepted(lib: Library, pw: string, opts: Options, random: Option<seq<Byte>>)
    requires DerivesKeys(lib) && BcryptAccepts(lib)
    ensures var h, algo := HashPassword(lib, pw, opts, random), opts.algo;
      && (h.Hashed? ==> CheckPassword(lib, h.text, pw) == Accepted)
      && !h.HashPanics? && (h.UnknownAlgo? <==> algo !in {"", ARGON, BCRYPT})
      && (h.RandomFailed? <==> algo in {"", ARGON} && random.None?)
  {
    var o := WithDefaults(opts);
    if o.algo == BCRYPT {
      var made := lib.bcryptHash(pw, o.bcryptCost);
      if made.Some? {
        assert ("bcrypt$" + made.value)[7..] == made.value;
      }
    } else if o.algo == ARGON && random.Some? {
      AcceptsIffSameKey(lib, pw, opts, random.value, pw);
    }
  }

  // ----- When checking panics -----

  /** The key derivation panics exactly when asked for no pass, no thread or no byte. */
  ghost predicate PanicsOnZero(lib: Library) {
    forall pw, salt, t, m, p, n :: lib.kdf(pw, salt, t, m, p, n).None? <==> t == 0 || p == 0 || n == 0
  }

  /** A stored text that reads back with no pass, no thread or a key whose length is zero in 32 bits. */
  predicate Degenerate(r: Parts) { r.t == 0 || r.p == 0 || |r.key| % TWO_TO_THE_32 == 0 }

  /** Main result: checking a password panics, whatever the password, exactly on Argon2id texts with such parts; no
      other text makes it panic, however malformed. */
  lemma CheckPanicsIff(lib: Library, text: string, pw: string)
    requires PanicsOnZero(lib)
    ensures CheckPassword(lib, text, pw) == Panics
      <==> "argon2id$" <= text && ReadArgon(text).Some? && Degenerate(ReadArgon(text).value)
  {
    if "argon2id$" <= text {
      ArgonIsChecked(lib, text, pw);
      if ReadArgon(text).Some? {
        var r := ReadArgon(text).value;
        assert lib.kdf(pw, r.salt, r.t, r.m, r.p, |r.key| % TWO_TO_THE_32).None? <==> Degenerate(r);
      }
    }
  }

  /** The text of no passes is one: nothing between the reading and the derivation looks at the parameters. */
  lemma NoPassesPanics(lib: Library, m: U32, p: U8, salt: seq<Byte>, key: seq<Byte>, pw: string)
    requires PanicsOnZero(lib)
    ensures CheckPassword(lib, ArgonText(m, 0, p, salt, key), pw) == Panics
  {
    ReadUndoesPrint(m, 0, p, salt, key);
    ArgonTextHead(m, 0, p, salt, key);
    CheckPanicsIff(lib, ArgonText(m, 0, p, salt, key), pw);
  }

  // ----- What any text accepts -----

  predicate RawBcrypt(text: string) { "$2a$" <= text || "$2b$" <= text || "$2y$" <= text }

  /** Main result: a text accepts a password exactly when it is a bcrypt hash that matches it, with or without the prefix,
      or an Argon2id text whose key is derived from it; every other text rejects every password. */
  lemma AcceptsIff(lib: Library, text: string, attempt: string)
    ensures CheckPassword(lib, text, attempt) == Accepted
      <==> || (exists raw :: text == "bcrypt$" + raw && lib.bcryptMatch(raw, attempt))
           || (RawBcrypt(text) && lib.bcryptMatch(text, attempt))
           || ("argon2id$" <= text && ReadArgon(text).Some? && var r := ReadArgon(text).value;
               lib.kdf(attempt, r.salt, r.t, r.m, r.p, |r.key| % TWO_TO_THE_32) == Some(r.key))
  {
    assert "bcrypt$" <= text ==> text == "bcrypt$" + text[7..];
    assert forall raw :: text == "bcrypt$" + raw ==> text[7..] == raw;
    assert "bcrypt$" <= text ==> text[0] == 'b';
    assert RawBcrypt(text) ==> text[0] == '$';
    assert "argon2id$" <= text ==> text[0] == 'a';
    if "argon2id$" <= text {
      ArgonIsChecked(lib, text, attempt);
    }
  }

  /** Under bcrypt the hash made accepts exactly the passwords the library matches with it, at the cost asked for, ten if
      none was, and so does the library's own text of it. */
  lemma BcryptAcceptsIff(lib: Library, pw: string, opts: Options, random: Option<seq<Byte>>, attempt: string)
    requires opts.algo == BCRYPT
    ensures match lib.bcryptHash(pw, if opts.bcryptCost == 0 then 10 else opts.bcryptCost)
      case None => HashPassword(lib, pw, opts, random) == BcryptFailed
      case Some(raw) =>
        && HashPassword(lib, pw, opts, random) == Hashed("bcrypt$" + raw)
        && CheckPassword(lib, "bcrypt$" + raw, attempt) == (if lib.bcryptMatch(raw, attempt) then Accepted else Rejected)
        && (RawBcrypt(raw) ==> CheckPassword(lib, raw, attempt) == CheckPassword(lib, "bcrypt$" + raw, attempt))
  {
    match lib.bcryptHash(pw, if opts.bcryptCost == 0 then 10 else opts.bcryptCost)
    case None =>
    case Some(raw) =>
      assert ("bcrypt$" + raw)[7..] == raw;
      assert RawBcrypt(raw) ==> raw[0] == '$';
      assert "bcrypt$" <= raw ==> raw[0] == 'b';
  }

  /** The text of an Argon2id hash reads back as the options asked for, each with its default for zero, the salt and as
      many bytes of key as asked. */
  lemma HashKeepsOptions(lib: Library, pw: string, opts: Options, salt: seq<Byte>)
    requires DerivesKeys(lib) && opts.algo in {"", ARGON}
    ensures var h := HashPassword(lib, pw, opts, Some(salt));
      h.Hashed? && match ReadArgon(h.text)
        case None => false
        case Some(r) =>
          && r.m == (if opts.memory == 0 then 65536 else opts.memory)
          && r.t == (if opts.time == 0 then 1 else opts.time)
          && r.p == (if opts.threads == 0 then 4 else opts.threads)
          && r.salt == salt && |r.key| == (if opts.keyLen == 0 then 32 else opts.keyLen)
  {
    var o := WithDefaults(opts);
    var key := lib.kdf(pw, salt, o.time, o.memory, o.threads, o.keyLen).value;
    assert |key| == o.keyLen;
    ReadUndoesPrint(o.memory, o.time, o.threads, salt, key);
  }
}
