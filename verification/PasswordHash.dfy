/**
  The password-hash string of the API server (cmd/api-server/auth/crypto.go:46-120): an Argon2id key with its
  parameters, printed as `$`-separated fields and parsed back. The key derivation itself is a parameter.
 */
module PasswordHash {
  import opened Wrappers
  import opened Base64

  const MEMORY: nat := 64 * 1024
  const ITERATIONS: nat := 3
  const PARALLELISM: nat := 2
  const KEY_LENGTH: nat := 32
  /** argon2.Version, 0x13 in section 3.1 of RFC 9106. */
  const VERSION: nat := 19

  const UINT8: nat := 0x100
  const UINT32: nat := 0x1_0000_0000
  const INT64: int := 0x8000_0000_0000_0000

  // ---------------------------------------------------------------------------------------------------------------
  // Decimals, and the part of fmt.Sscanf that the parser uses
  // ---------------------------------------------------------------------------------------------------------------

  function DecimalDigit(d: nat): char
    requires d < 10
  {
    '0' + d as char
  }

  /** fmt's %d of a non-negative number. */
  function Decimal(n: nat): (s: string)
    ensures s != ""
    ensures forall i :: 0 <= i < |s| ==> '0' <= s[i] <= '9'
  {
    if n < 10 then [DecimalDigit(n)] else Decimal(n / 10) + [DecimalDigit(n % 10)]
  }

  predicate IsDecimal(c: char) { '0' <= c <= '9' }

  /** The number of leading decimal digits. */
  function DigitCount(s: string): (k: nat)
    ensures k <= |s| && forall i :: 0 <= i < k ==> IsDecimal(s[i])
  {
    if s != "" && IsDecimal(s[0]) then 1 + DigitCount(s[1..]) else 0
  }

  function Number(digits: string): nat
    requires forall i :: 0 <= i < |digits| ==> IsDecimal(digits[i])
  {
    if digits == "" then 0
    else
      assert IsDecimal(digits[|digits| - 1]);
      Number(digits[..|digits| - 1]) * 10 + (digits[|digits| - 1] as int - '0' as int)
  }

  /** White space other than a line feed, as fmt skips it before a number. */
  predicate IsBlank(c: char) {
    var u := c as int;
    (0x09 <= u <= 0x0d && u != 0x0a) || u == 0x20 || u == 0x85 || u == 0xa0 || u == 0x1680
    || 0x2000 <= u <= 0x200a || u == 0x2028 || u == 0x2029 || u == 0x202f || u == 0x205f || u == 0x3000
  }

  /** A line feed where a number is expected is an error. */
  function SkipBlanks(s: string): Option<string> {
    if s == "" then Some(s)
    else if s[0] == '\n' then None
    else if IsBlank(s[0]) then SkipBlanks(s[1..])
    else Some(s)
  }

  /** %d into an unsigned field below `limit`: the value and the unread rest. */
  function ScanUnsigned(s: string, limit: nat): Option<(nat, string)> {
    var t := SkipBlanks(s);
    if t.None? then None
    else
      var k := DigitCount(t.value);
      if k == 0 || Number(t.value[..k]) >= limit then None else Some((Number(t.value[..k]), t.value[k..]))
  }

  /** %d into an int: an optional sign, then digits, within 64 bits. */
  function ScanSigned(s: string): Option<(int, string)> {
    var t := SkipBlanks(s);
    if t.None? then None
    else
      var signed := t.value != "" && (t.value[0] == '+' || t.value[0] == '-');
      var u := if signed then t.value[1..] else t.value;
      var k := DigitCount(u);
      if k == 0 then None
      else
        var magnitude: int := Number(u[..k]);
        var n := if signed && t.value[0] == '-' then -magnitude else magnitude;
        if -INT64 <= n < INT64 then Some((n, u[k..])) else None
  }

  /** The literal characters of a format. */
  function ScanLiteral(s: string, literal: string): Option<string> {
    if literal <= s then Some(s[|literal|..]) else None
  }

  /** Sscanf(s, "v=%d"); text after the number is not looked at. */
  function ScanVersion(s: string): Option<int> {
    var t := ScanLiteral(s, "v=");
    if t.None? then None
    else
      var n := ScanSigned(t.value);
      if n.None? then None else Some(n.value.0)
  }

  /** One "literal%d" step of a format. */
  function ScanField(s: string, literal: string, limit: nat): Option<(nat, string)> {
    var t := ScanLiteral(s, literal);
    if t.None? then None else ScanUnsigned(t.value, limit)
  }

  /** Sscanf(s, "m=%d,t=%d,p=%d"). */
  function ScanParameters(s: string): Option<(nat, nat, nat)> {
    var m := ScanField(s, "m=", UINT32);
    if m.None? then None else
    var t := ScanField(m.value.1, ",t=", UINT32);
    if t.None? then None else
    var p := ScanField(t.value.1, ",p=", UINT8);
    if p.None? then None else Some((m.value.0, t.value.0, p.value.0))
  }

  /** strings.Split(s, "$"). */
  function Split(s: string): (fields: seq<string>)
    ensures fields != []
  {
    if s == "" then [""]
    else
      var rest := Split(s[1..]);
      if s[0] == '$' then [""] + rest else [[s[0]] + rest[0]] + rest[1..]
  }

  // ---------------------------------------------------------------------------------------------------------------
  // What a printed string and a password mean
  // ---------------------------------------------------------------------------------------------------------------

  datatype Argon = Argon(memory: nat, iterations: nat, parallelism: nat, saltLength: nat, keyLength: nat,
                         salt: seq<byte>, hash: seq<byte>)

  datatype Error = CryptoError | ScanError | CorruptBase64
  datatype Result = Ok(argon: Argon) | Err(error: Error)

  /** The printed form (line 62). */
  function Encoded(memory: nat, iterations: nat, parallelism: nat, salt: seq<byte>, hash: seq<byte>): string {
    "$argon2id$" + ("v=" + Decimal(VERSION)) + "$"
    + ("m=" + Decimal(memory) + ",t=" + Decimal(iterations) + ",p=" + Decimal(parallelism)) + "$"
    + Encode(salt) + "$" + Encode(hash)
  }

  /** What the fields of a string mean to decodeHash. */
  function Decoded(fields: seq<string>): Result {
    if |fields| != 6 then Err(CryptoError)
    else
      var version := ScanVersion(fields[2]);
      if version.None? then Err(ScanError)
      else if version.value != VERSION then Err(CryptoError)
      else
        var p, salt, hash := ScanParameters(fields[3]), Decode(fields[4]), Decode(fields[5]);
        if p.None? then Err(ScanError)
        else if salt.None? || hash.None? then Err(CorruptBase64)
        else Ok(Argon(p.value.0, p.value.1, p.value.2, |salt.value| % UINT32, |hash.value| % UINT32,
                      salt.value, hash.value))
  }

  /** argon2.IDKey: password, salt, time, memory, threads, key length. */
  type Kdf = (seq<byte>, seq<byte>, nat, nat, nat, nat) -> seq<byte>

  /** The one law assumed of the key derivation: the key has the requested length. */
  ghost predicate Lawful(kdf: Kdf) {
    forall password, salt, t, m, p, n :: |kdf(password, salt, t, m, p, n)| == n
  }

  /** A string generated with the given parameters. */
  function GenerateWith(kdf: Kdf, m: nat, t: nat, p: nat, n: nat, password: seq<byte>, salt: seq<byte>): string {
    Encoded(m, t, p, salt, kdf(password, salt, t, m, p, n))
  }

  /** Parameters that their fields hold and that the key derivation accepts. */
  predicate InRange(m: nat, t: nat, p: nat, n: nat) {
    m < UINT32 && 0 < t < UINT32 && 0 < p < UINT8 && n < UINT32
  }

  /** GenerateFromPassword, lines 46-66, for the random salt drawn. */
  function Generate(kdf: Kdf, password: seq<byte>, salt: seq<byte>): string {
    GenerateWith(kdf, MEMORY, ITERATIONS, PARALLELISM, KEY_LENGTH, password, salt)
  }

  datatype Verdict = Match | Mismatch | Invalid(error: Error) | Panics

  function Compared(kdf: Kdf, password: seq<byte>, r: Result): Verdict {
    match r
    case Err(e) => Invalid(e)
    case Ok(a) =>
      if a.iterations == 0 || a.parallelism == 0 then Panics
      else if a.hash == kdf(password, a.salt, a.iterations, a.memory, a.parallelism, a.keyLength) then Match
      else Mismatch
  }

  // ---------------------------------------------------------------------------------------------------------------
  // Round trips
  // ---------------------------------------------------------------------------------------------------------------

  lemma {:induction false} DecimalNumber(n: nat)
    ensures Number(Decimal(n)) == n
  {
    if n < 10 {
      assert Decimal(n)[..0] == "";
    } else {
      DecimalNumber(n / 10);
      assert Decimal(n)[..|Decimal(n)| - 1] == Decimal(n / 10);
    }
  }

  lemma {:induction false} DigitsThenRest(digits: string, rest: string)
    requires forall i :: 0 <= i < |digits| ==> IsDecimal(digits[i])
    requires rest == "" || !IsDecimal(rest[0])
    ensures DigitCount(digits + rest) == |digits|
  {
    if digits == "" {
      assert digits + rest == rest;
    } else {
      DigitsThenRest(digits[1..], rest);
      assert (digits + rest)[1..] == digits[1..] + rest;
    }
  }

  /** A printed decimal, followed by something that is not a digit, is read back. */
  lemma ScanPrinted(n: nat, rest: string, limit: nat)
    requires n < limit && (rest == "" || !IsDecimal(rest[0]))
    ensures ScanUnsigned(Decimal(n) + rest, limit) == Some((n, rest))
    ensures n < INT64 ==> ScanSigned(Decimal(n) + rest) == Some((n, rest))
  {
    var s := Decimal(n) + rest;
    assert s[0] == Decimal(n)[0];
    assert SkipBlanks(s) == Some(s);
    DigitsThenRest(Decimal(n), rest);
    assert s[..|Decimal(n)|] == Decimal(n) && s[|Decimal(n)|..] == rest;
    DecimalNumber(n);
  }

  lemma VersionPrinted()
    ensures ScanVersion("v=" + Decimal(VERSION)) == Some(VERSION)
  {
    var s := "v=" + Decimal(VERSION);
    assert s[2..] == Decimal(VERSION) + "";
    ScanPrinted(VERSION, "", INT64);
  }

  lemma FieldPrinted(literal: string, n: nat, rest: string, limit: nat)
    requires n < limit && (rest == "" || !IsDecimal(rest[0]))
    ensures ScanField(literal + Decimal(n) + rest, literal, limit) == Some((n, rest))
  {
    var s := literal + Decimal(n) + rest;
    assert s[|literal|..] == Decimal(n) + rest;
    ScanPrinted(n, rest, limit);
  }

  /** Six concatenated parts, grouped as three fields each followed by the rest. */
  lemma ThreeFields(a: string, b: string, c: string, d: string, e: string, f: string)
    ensures a + b + c + d + e + f == a + b + (c + d + (e + f + ""))
  {}

  lemma LastFields(m: nat, t: nat, p: nat)
    requires m < UINT32 && t < UINT32 && p < UINT8
    ensures ScanParameters("m=" + Decimal(m) + (",t=" + Decimal(t) + (",p=" + Decimal(p) + ""))) == Some((m, t, p))
  {
    var s3 := ",p=" + Decimal(p) + "";
    var s2 := ",t=" + Decimal(t) + s3;
    assert s2[0] == ',' && s3[0] == ',';
    FieldPrinted("m=", m, s2, UINT32);
    FieldPrinted(",t=", t, s3, UINT32);
    FieldPrinted(",p=", p, "", UINT8);
  }

  lemma ParametersPrinted(m: nat, t: nat, p: nat)
    requires m < UINT32 && t < UINT32 && p < UINT8
    ensures ScanParameters("m=" + Decimal(m) + ",t=" + Decimal(t) + ",p=" + Decimal(p)) == Some((m, t, p))
  {
    ThreeFields("m=", Decimal(m), ",t=", Decimal(t), ",p=", Decimal(p));
    LastFields(m, t, p);
  }

  predicate NoDollar(s: string) { forall i :: 0 <= i < |s| ==> s[i] != '$' }

  lemma {:induction false} SplitLast(s: string)
    requires NoDollar(s)
    ensures Split(s) == [s]
  {
    if s == "" {
    } else {
      SplitLast(s[1..]);
      assert s == [s[0]] + s[1..];
    }
  }

  lemma {:induction false} SplitField(field: string, rest: string)
    requires NoDollar(field)
    ensures Split(field + "$" + rest) == [field] + Split(rest)
  {
    var s := field + "$" + rest;
    if field == "" {
      assert s[1..] == rest;
    } else {
      SplitField(field[1..], rest);
      assert s[1..] == field[1..] + "$" + rest;
      assert field == [field[0]] + field[1..];
      assert ([field[1..]] + Split(rest))[1..] == Split(rest);
    }
  }

  lemma PrintedHasNoDollar(b: seq<byte>)
    ensures NoDollar(Encode(b))
  {
    EncodeAlphabet(b);
    forall i | 0 <= i < |Encode(b)| ensures Encode(b)[i] != '$' {
      assert Value(Encode(b)[i]).Some?;
    }
  }

  lemma {:induction false} SplitAppend(s: string, last: string)
    requires NoDollar(last)
    ensures Split(s + "$" + last) == Split(s) + [last]
  {
    var t := s + "$" + last;
    if s == "" {
      assert t[1..] == last;
      SplitLast(last);
    } else {
      SplitAppend(s[1..], last);
      assert t[1..] == s[1..] + "$" + last;
    }
  }

  /** strings.Join(fields, "$"). */
  function Join(fields: seq<string>): string
    requires fields != []
  {
    if |fields| == 1 then fields[0] else Join(fields[..|fields| - 1]) + "$" + fields[|fields| - 1]
  }

  /** Splitting undoes joining, for any number of fields without a dollar sign. */
  lemma {:induction false} SplitJoin(fields: seq<string>)
    requires fields != [] && forall f :: f in fields ==> NoDollar(f)
    ensures Split(Join(fields)) == fields
  {
    var k := |fields| - 1;
    var init, last := fields[..k], fields[k];
    if init == [] {
      SplitLast(last);
      assert fields == [last];
    } else {
      assert forall f :: f in init ==> f in fields;
      SplitJoin(init);
      SplitAppend(Join(init), last);
      assert fields == init + [last];
    }
  }

  lemma JoinThree(a: string, b: string, c: string)
    ensures Join([a, b, c]) == a + "$" + b + "$" + c
  {
    assert [a, b, c][..2] == [a, b] && [a, b][..1] == [a];
    assert Join([a, b]) == a + "$" + b;
  }

  lemma JoinSix(a: string, b: string, c: string, d: string, e: string, f: string)
    ensures Join([a, b, c, d, e, f]) == a + "$" + b + "$" + c + "$" + d + "$" + e + "$" + f
  {
    JoinThree(a, b, c);
    assert [a, b, c, d, e, f][..5] == [a, b, c, d, e] && [a, b, c, d, e][..4] == [a, b, c, d];
    assert [a, b, c, d][..3] == [a, b, c];
    assert Join([a, b, c, d]) == Join([a, b, c]) + "$" + d;
    assert Join([a, b, c, d, e]) == Join([a, b, c, d]) + "$" + e;
  }

  lemma ParametersHaveNoDollar(m: nat, t: nat, p: nat)
    ensures NoDollar("v=" + Decimal(m))
    ensures NoDollar("m=" + Decimal(m) + ",t=" + Decimal(t) + ",p=" + Decimal(p))
  {
    assert NoDollar(Decimal(m)) && NoDollar(Decimal(t)) && NoDollar(Decimal(p));
  }

  /** The fields of a printed string. */
  lemma PrintedFields(m: nat, t: nat, p: nat, salt: seq<byte>, hash: seq<byte>)
    ensures Split(Encoded(m, t, p, salt, hash))
         == ["", "argon2id", "v=" + Decimal(VERSION), "m=" + Decimal(m) + ",t=" + Decimal(t) + ",p=" + Decimal(p),
             Encode(salt), Encode(hash)]
  {
    var version := "v=" + Decimal(VERSION);
    var parameters := "m=" + Decimal(m) + ",t=" + Decimal(t) + ",p=" + Decimal(p);
    var f := ["", "argon2id", version, parameters, Encode(salt), Encode(hash)];
    PrintedHasNoDollar(salt);
    PrintedHasNoDollar(hash);
    ParametersHaveNoDollar(m, t, p);
    ParametersHaveNoDollar(VERSION, t, p);
    JoinSix("", "argon2id", version, parameters, Encode(salt), Encode(hash));
    assert "" + "$" + "argon2id" + "$" == "$argon2id$";
    SplitJoin(f);
  }

  /**
    Round trip: for all salts, keys and parameters in the range of their fields, decodeHash of the printed string
    returns exactly those values.
   */
  lemma HashStringRoundTrip(m: nat, t: nat, p: nat, salt: seq<byte>, hash: seq<byte>)
    requires m < UINT32 && t < UINT32 && p < UINT8
    ensures Decoded(Split(Encoded(m, t, p, salt, hash)))
         == Ok(Argon(m, t, p, |salt| % UINT32, |hash| % UINT32, salt, hash))
  {
    PrintedFields(m, t, p, salt, hash);
    VersionPrinted();
    ParametersPrinted(m, t, p);
    StrictInverse(Encode(salt), salt);
    StrictInverse(Encode(hash), hash);
  }

  lemma KeyComparison(kdf: Kdf, t: nat, m: nat, p: nat, n: nat, password: seq<byte>, other: seq<byte>, a: Argon)
    requires Lawful(kdf) && 0 < t && 0 < p && n < UINT32
    requires a == Argon(m, t, p, a.saltLength, |a.hash| % UINT32, a.salt, kdf(password, a.salt, t, m, p, n))
    ensures Compared(kdf, password, Ok(a)).Match?
    ensures Compared(kdf, other, Ok(a)).Match? <==> kdf(other, a.salt, t, m, p, n) == a.hash
  {
    assert |a.hash| == n;
  }

  /**
    A password always matches the hash generated from it, for all parameters in range; another password matches it
    exactly when it derives the same key from the same salt.
   */
  lemma GeneratedWithMatches(kdf: Kdf, m: nat, t: nat, p: nat, n: nat, password: seq<byte>, other: seq<byte>,
                             salt: seq<byte>)
    requires Lawful(kdf) && InRange(m, t, p, n)
    ensures Compared(kdf, password, Decoded(Split(GenerateWith(kdf, m, t, p, n, password, salt)))).Match?
    ensures Compared(kdf, other, Decoded(Split(GenerateWith(kdf, m, t, p, n, password, salt)))).Match? <==>
            kdf(other, salt, t, m, p, n) == kdf(password, salt, t, m, p, n)
  {
    var key := kdf(password, salt, t, m, p, n);
    var r := Decoded(Split(GenerateWith(kdf, m, t, p, n, password, salt)));
    assert r == Ok(Argon(m, t, p, |salt| % UINT32, |key| % UINT32, salt, key)) by {
      HashStringRoundTrip(m, t, p, salt, key);
    }
    KeyComparison(kdf, t, m, p, n, password, other, r.argon);
  }

  /** The same for GenerateFromPassword, whose parameters are constants. */
  lemma GeneratedHashMatches(kdf: Kdf, password: seq<byte>, other: seq<byte>, salt: seq<byte>)
    requires Lawful(kdf)
    ensures Compared(kdf, password, Decoded(Split(Generate(kdf, password, salt)))).Match?
    ensures Compared(kdf, other, Decoded(Split(Generate(kdf, password, salt)))).Match? <==>
            kdf(other, salt, ITERATIONS, MEMORY, PARALLELISM, KEY_LENGTH)
            == kdf(password, salt, ITERATIONS, MEMORY, PARALLELISM, KEY_LENGTH)
  {
    GeneratedWithMatches(kdf, MEMORY, ITERATIONS, PARALLELISM, KEY_LENGTH, password, other, salt);
  }

  /** The salt and key fields are their own re-encodings, up to line breaks, and the parameters are in range. */
  predicate Canonical(fields: seq<string>, a: Argon) {
    && |fields| == 6
    && WithoutLineBreaks(fields[4]) == Encode(a.salt) && WithoutLineBreaks(fields[5]) == Encode(a.hash)
    && a.memory < UINT32 && a.iterations < UINT32 && a.parallelism < UINT8
    && a.saltLength == |a.salt| % UINT32 && a.keyLength == |a.hash| % UINT32
  }

  lemma AcceptedIsCanonical(fields: seq<string>)
    ensures Decoded(fields).Ok? ==> Canonical(fields, Decoded(fields).argon)
  {
    if Decoded(fields).Ok? {
      StrictInverse(fields[4], Decoded(fields).argon.salt);
      StrictInverse(fields[5], Decoded(fields).argon.hash);
    }
  }

  // ---------------------------------------------------------------------------------------------------------------
  // Exactly which strings are accepted
  // ---------------------------------------------------------------------------------------------------------------

  predicate Blanks(s: string) { forall i :: 0 <= i < |s| ==> IsBlank(s[i]) }
  predicate IsNumeral(s: string) { s != "" && forall i :: 0 <= i < |s| ==> IsDecimal(s[i]) }
  predicate NoDigitFirst(s: string) { s == "" || !IsDecimal(s[0]) }

  /** `s` is a number, after blanks and a sign, followed by text that does not continue it. */
  ghost predicate Numeral(s: string, blanks: string, sign: string, digits: string, rest: string) {
    && s == blanks + (sign + (digits + rest))
    && Blanks(blanks) && sign in {"", "+", "-"} && IsNumeral(digits) && NoDigitFirst(rest)
  }

  ghost predicate ReadsUnsigned(s: string, n: nat, rest: string) {
    exists blanks, digits :: Numeral(s, blanks, "", digits, rest) && Number(digits) == n
  }

  function Signed(sign: string, digits: string): int
    requires IsNumeral(digits)
  {
    var magnitude: int := Number(digits);
    if sign == "-" then -magnitude else magnitude
  }

  ghost predicate ReadsSigned(s: string, n: int) {
    exists blanks, sign, digits, rest :: Numeral(s, blanks, sign, digits, rest) && n == Signed(sign, digits)
  }

  lemma {:induction false} SkippedBlanks(s: string) returns (blanks: string)
    requires SkipBlanks(s).Some?
    ensures Blanks(blanks) && s == blanks + SkipBlanks(s).value
    ensures var t := SkipBlanks(s).value; t == "" || (!IsBlank(t[0]) && t[0] != '\n')
  {
    if s == "" || !IsBlank(s[0]) {
      blanks := "";
    } else {
      blanks := SkippedBlanks(s[1..]);
      blanks := [s[0]] + blanks;
    }
  }

  lemma {:induction false} BlanksSkipped(blanks: string, t: string)
    requires Blanks(blanks) && (t == "" || (!IsBlank(t[0]) && t[0] != '\n'))
    ensures SkipBlanks(blanks + t) == Some(t)
  {
    if blanks == "" {
      assert blanks + t == t;
    } else {
      assert (blanks + t)[1..] == blanks[1..] + t;
      BlanksSkipped(blanks[1..], t);
    }
  }

  lemma {:induction false} DigitCountIsMaximal(s: string)
    ensures NoDigitFirst(s[DigitCount(s)..])
  {
    if s == "" || !IsDecimal(s[0]) {
    } else {
      DigitCountIsMaximal(s[1..]);
      assert s[DigitCount(s)..] == s[1..][DigitCount(s[1..])..];
    }
  }

  lemma UnsignedRead(s: string, limit: nat, blanks: string, digits: string, rest: string)
    requires Numeral(s, blanks, "", digits, rest)
    ensures Number(digits) < limit ==> ScanUnsigned(s, limit) == Some((Number(digits), rest))
  {
    var t := digits + rest;
    assert "" + t == t && t[0] == digits[0];
    BlanksSkipped(blanks, t);
    DigitsThenRest(digits, rest);
    assert t[..|digits|] == digits && t[|digits|..] == rest;
  }

  /** %d into an unsigned field reads exactly the numerals in its range. */
  lemma UnsignedIff(s: string, limit: nat, n: nat, rest: string)
    ensures ScanUnsigned(s, limit) == Some((n, rest)) <==> ReadsUnsigned(s, n, rest) && n < limit
  {
    if ScanUnsigned(s, limit) == Some((n, rest)) {
      var blanks := SkippedBlanks(s);
      var t := SkipBlanks(s).value;
      var k := DigitCount(t);
      DigitCountIsMaximal(t);
      assert t == "" + (t[..k] + t[k..]);
      assert Numeral(s, blanks, "", t[..k], rest);
    }
    if ReadsUnsigned(s, n, rest) {
      var blanks, digits :| Numeral(s, blanks, "", digits, rest) && Number(digits) == n;
      UnsignedRead(s, limit, blanks, digits, rest);
    }
  }

  lemma NumeralSplit(s: string, blanks: string, sign: string, u: string)
    requires s == blanks + (sign + u) && Blanks(blanks) && sign in {"", "+", "-"} && DigitCount(u) > 0
    ensures ReadsSigned(s, Signed(sign, u[..DigitCount(u)]))
  {
    var k := DigitCount(u);
    DigitCountIsMaximal(u);
    assert u == u[..k] + u[k..];
    assert Numeral(s, blanks, sign, u[..k], u[k..]);
  }

  lemma SignedSplit(s: string, n: int)
    requires ScanSigned(s).Some? && ScanSigned(s).value.0 == n
    ensures ReadsSigned(s, n)
  {
    var blanks := SkippedBlanks(s);
    var t := SkipBlanks(s).value;
    if t[0] == '+' || t[0] == '-' {
      assert t == [t[0]] + t[1..];
      NumeralSplit(s, blanks, [t[0]], t[1..]);
    } else {
      assert t == "" + t;
      NumeralSplit(s, blanks, "", t);
    }
  }

  lemma SignedRead(s: string, n: int, blanks: string, sign: string, digits: string, rest: string)
    requires Numeral(s, blanks, sign, digits, rest)
    requires n == Signed(sign, digits) && -INT64 <= n < INT64
    ensures ScanSigned(s).Some? && ScanSigned(s).value.0 == n
  {
    var u := digits + rest;
    var t := sign + u;
    assert u[0] == digits[0];
    if sign == "" {
      assert t == u;
    } else {
      assert t[0] == sign[0] && t[1..] == u;
    }
    BlanksSkipped(blanks, t);
    DigitsThenRest(digits, rest);
    assert u[..|digits|] == digits && u[|digits|..] == rest;
  }

  /** %d into an int reads exactly the signed numerals within 64 bits. */
  lemma SignedIff(s: string, n: int)
    ensures (ScanSigned(s).Some? && ScanSigned(s).value.0 == n) <==> ReadsSigned(s, n) && -INT64 <= n < INT64
  {
    if ScanSigned(s).Some? && ScanSigned(s).value.0 == n {
      SignedSplit(s, n);
    }
    if ReadsSigned(s, n) && -INT64 <= n < INT64 {
      var blanks, sign, digits, rest :| Numeral(s, blanks, sign, digits, rest) && n == Signed(sign, digits);
      SignedRead(s, n, blanks, sign, digits, rest);
    }
  }

  /** The version field reads as `n`, with any text after the number. */
  ghost predicate ReadsVersion(f: string, n: int) { "v=" <= f && ReadsSigned(f[2..], n) && -INT64 <= n < INT64 }

  /** The version field: the version, and any text after it. */
  ghost predicate VersionField(f: string) { ReadsVersion(f, 19) }

  /** The parameters field: the three numbers, and any text after the last one. */
  ghost predicate ParametersField(f: string, m: nat, t: nat, p: nat) {
    exists a, b, c, rest ::
      && f == "m=" + a && ReadsUnsigned(a, m, ",t=" + b) && ReadsUnsigned(b, t, ",p=" + c) && ReadsUnsigned(c, p, rest)
      && m < UINT32 && t < UINT32 && p < UINT8
  }

  lemma FieldIff(s: string, literal: string, limit: nat, n: nat, rest: string)
    ensures ScanField(s, literal, limit) == Some((n, rest)) <==>
            literal <= s && ReadsUnsigned(s[|literal|..], n, rest) && n < limit
  {
    if literal <= s { UnsignedIff(s[|literal|..], limit, n, rest); }
  }

  lemma ParametersSplit(f: string, m: nat, t: nat, p: nat)
    requires ScanParameters(f) == Some((m, t, p))
    ensures ParametersField(f, m, t, p)
  {
    var r1 := ScanField(f, "m=", UINT32).value.1;
    var r2 := ScanField(r1, ",t=", UINT32).value.1;
    var r3 := ScanField(r2, ",p=", UINT8).value.1;
    FieldIff(f, "m=", UINT32, m, r1);
    FieldIff(r1, ",t=", UINT32, t, r2);
    FieldIff(r2, ",p=", UINT8, p, r3);
    var a, b, c := f[2..], r1[3..], r2[3..];
    assert f == "m=" + a && r1 == ",t=" + b && r2 == ",p=" + c;
  }

  lemma ParametersRead(f: string, m: nat, t: nat, p: nat, a: string, b: string, c: string, rest: string)
    requires f == "m=" + a && ReadsUnsigned(a, m, ",t=" + b) && ReadsUnsigned(b, t, ",p=" + c)
    requires ReadsUnsigned(c, p, rest) && m < UINT32 && t < UINT32 && p < UINT8
    ensures ScanParameters(f) == Some((m, t, p))
  {
    assert f[2..] == a && (",t=" + b)[3..] == b && (",p=" + c)[3..] == c;
    FieldIff(f, "m=", UINT32, m, ",t=" + b);
    FieldIff(",t=" + b, ",t=", UINT32, t, ",p=" + c);
    FieldIff(",p=" + c, ",p=", UINT8, p, rest);
  }

  lemma ParametersIff(f: string, m: nat, t: nat, p: nat)
    ensures ScanParameters(f) == Some((m, t, p)) <==> ParametersField(f, m, t, p)
  {
    if ScanParameters(f) == Some((m, t, p)) {
      ParametersSplit(f, m, t, p);
    }
    if ParametersField(f, m, t, p) {
      var a, b, c, rest :|
        && f == "m=" + a
        && ReadsUnsigned(a, m, ",t=" + b) && ReadsUnsigned(b, t, ",p=" + c) && ReadsUnsigned(c, p, rest)
        && m < UINT32 && t < UINT32 && p < UINT8;
      ParametersRead(f, m, t, p, a, b, c, rest);
    }
  }

  /** The strings that mean `a` to decodeHash, by their fields. */
  ghost predicate Accepts(fields: seq<string>, a: Argon) {
    && |fields| == 6
    && VersionField(fields[2]) && ParametersField(fields[3], a.memory, a.iterations, a.parallelism)
    && WithoutLineBreaks(fields[4]) == Encode(a.salt) && WithoutLineBreaks(fields[5]) == Encode(a.hash)
    && a.saltLength == |a.salt| % UINT32 && a.keyLength == |a.hash| % UINT32
  }

  lemma VersionIff(f: string)
    ensures ScanVersion(f) == Some(VERSION) <==> VersionField(f)
  {
    if "v=" <= f { SignedIff(f[2..], VERSION); }
  }

  /** What decodeHash asks of the fields. */
  lemma DecodedIff(fields: seq<string>, a: Argon)
    ensures Decoded(fields) == Ok(a) <==>
            && |fields| == 6
            && ScanVersion(fields[2]) == Some(VERSION)
            && ScanParameters(fields[3]) == Some((a.memory, a.iterations, a.parallelism))
            && Decode(fields[4]) == Some(a.salt) && Decode(fields[5]) == Some(a.hash)
            && a.saltLength == |a.salt| % UINT32 && a.keyLength == |a.hash| % UINT32
  {}

  /**
    Exactly which strings are accepted, and as what: six fields, of which the first two are not looked at; the version
    and the three parameters, each after blanks and followed by any text that does not continue it; and canonical
    base64, up to line breaks.
   */
  lemma AcceptedIff(fields: seq<string>, a: Argon)
    ensures Decoded(fields) == Ok(a) <==> Accepts(fields, a)
  {
    DecodedIff(fields, a);
    if |fields| == 6 {
      VersionIff(fields[2]);
      ParametersIff(fields[3], a.memory, a.iterations, a.parallelism);
      StrictInverse(fields[4], a.salt);
      StrictInverse(fields[5], a.hash);
    }
  }

  lemma VersionWithText(x: string)
    requires NoDigitFirst(x)
    ensures ScanVersion("v=" + Decimal(VERSION) + x) == Some(VERSION)
  {
    var s := "v=" + Decimal(VERSION) + x;
    assert s[2..] == Decimal(VERSION) + x;
    ScanPrinted(VERSION, x, INT64);
  }

  lemma TextAtEnd(a: string, b: string, c: string, d: string, e: string, f: string, y: string)
    ensures a + b + c + d + e + f + y == a + b + (c + d + (e + f + y))
  {}

  lemma ParametersWithText(m: nat, t: nat, p: nat, y: string)
    requires NoDigitFirst(y) && m < UINT32 && t < UINT32 && p < UINT8
    ensures ScanParameters("m=" + Decimal(m) + ",t=" + Decimal(t) + ",p=" + Decimal(p) + y) == Some((m, t, p))
  {
    var s3 := ",p=" + Decimal(p) + y;
    var s2 := ",t=" + Decimal(t) + s3;
    assert s2[0] == ',' && s3[0] == ',';
    FieldPrinted("m=", m, s2, UINT32);
    FieldPrinted(",t=", t, s3, UINT32);
    FieldPrinted(",p=", p, y, UINT8);
    TextAtEnd("m=", Decimal(m), ",t=", Decimal(t), ",p=", Decimal(p), y);
  }

  /** Beside the base64 fields, only what is scanned from the version and the parameters matters. */
  lemma SameScans(f: seq<string>, g: seq<string>)
    requires |f| == |g| == 6 && f[4] == g[4] && f[5] == g[5]
    requires ScanVersion(f[2]) == ScanVersion(g[2]) && ScanParameters(f[3]) == ScanParameters(g[3])
    ensures Decoded(f) == Decoded(g)
  {}

  /** Text after the version number and after the last parameter is not looked at. */
  lemma TrailingTextIsIgnored(fields: seq<string>, m: nat, t: nat, p: nat, x: string, y: string)
    requires |fields| == 6 && NoDigitFirst(x) && NoDigitFirst(y) && m < UINT32 && t < UINT32 && p < UINT8
    requires fields[2] == "v=" + Decimal(VERSION)
    requires fields[3] == "m=" + Decimal(m) + ",t=" + Decimal(t) + ",p=" + Decimal(p)
    ensures Decoded(fields[2 := fields[2] + x][3 := fields[3] + y]) == Decoded(fields)
  {
    VersionPrinted();
    ParametersPrinted(m, t, p);
    VersionWithText(x);
    ParametersWithText(m, t, p, y);
    SameScans(fields[2 := fields[2] + x][3 := fields[3] + y], fields);
  }

  lemma PrintedDecimals()
    ensures Decimal(19) == "19" && Decimal(3) == "3" && Decimal(2) == "2" && Decimal(65536) == "65536"
  {
    assert Decimal(65) == "65";
    assert Decimal(655) == Decimal(65) + "5" == "655";
    assert Decimal(6553) == Decimal(655) + "3" == "6553";
  }

  lemma PrintedPrefix()
    ensures "$argon2id$" + ("v=" + "19") + "$" + ("m=" + "65536" + ",t=" + "3" + ",p=" + "2") + "$"
         == "$argon2id$v=19$m=65536,t=3,p=2$"
  {
    assert "v=" + "19" == "v=19" && "m=" + "65536" == "m=65536";
    assert "m=65536" + ",t=" + "3" + ",p=" + "2" == "m=65536,t=3,p=2";
    assert "$argon2id$" + "v=19" + "$" == "$argon2id$v=19$";
  }

  /** What a generated string looks like, and what its key is derived with. */
  lemma GeneratedForm(kdf: Kdf, password: seq<byte>, salt: seq<byte>)
    ensures Generate(kdf, password, salt)
         == "$argon2id$v=19$m=65536,t=3,p=2$" + Encode(salt) + "$" + Encode(kdf(password, salt, 3, 65536, 2, 32))
  {
    PrintedDecimals();
    PrintedPrefix();
  }

  lemma TwoFields(a: string, b: string, rest: string)
    requires NoDollar(a) && NoDollar(b)
    ensures Split(a + "$" + b + "$" + rest) == [a, b] + Split(rest)
  {
    assert a + "$" + b + "$" + rest == a + "$" + (b + "$" + rest);
    SplitField(a, b + "$" + rest);
    SplitField(b, rest);
  }

  /** The first two fields, the algorithm's name among them, are never looked at. */
  lemma AlgorithmIsIgnored(a: string, b: string, rest: string)
    requires NoDollar(a) && NoDollar(b)
    ensures Decoded(Split(a + "$" + b + "$" + rest)) == Decoded(Split("$argon2id$" + rest))
  {
    TwoFields(a, b, rest);
    TwoFields("", "argon2id", rest);
    assert "$argon2id$" + rest == "" + "$" + "argon2id" + "$" + rest;
    assert ([a, b] + Split(rest))[2..] == (["", "argon2id"] + Split(rest))[2..];
  }

  // ---------------------------------------------------------------------------------------------------------------
  // The code
  // ---------------------------------------------------------------------------------------------------------------

  /** Whatever values a string was printed from, they are the result. */
  ghost predicate GivesPrinted(s: string, r: Result) {
    forall m: nat, t: nat, p: nat, salt, hash | m < UINT32 && t < UINT32 && p < UINT8 ::
      s == Encoded(m, t, p, salt, hash) ==> r == Ok(Argon(m, t, p, |salt| % UINT32, |hash| % UINT32, salt, hash))
  }

  lemma PrintedIsRead(s: string)
    ensures GivesPrinted(s, Decoded(Split(s)))
  {
    forall m: nat, t: nat, p: nat, salt, hash |
        m < UINT32 && t < UINT32 && p < UINT8 && s == Encoded(m, t, p, salt, hash)
      ensures Decoded(Split(s)) == Ok(Argon(m, t, p, |salt| % UINT32, |hash| % UINT32, salt, hash))
    {
      HashStringRoundTrip(m, t, p, salt, hash);
    }
  }

  /** The key of an accepted string is the one the password derives. */
  predicate Derives(kdf: Kdf, password: seq<byte>, a: Argon) {
    a.hash == kdf(password, a.salt, a.iterations, a.memory, a.parallelism, a.keyLength)
  }

  /** The string is accepted, with parameters for which the key derivation panics: no passes or no threads. */
  ghost predicate IsUnusable(s: string) {
    exists a :: Accepts(Split(s), a) && (a.iterations == 0 || a.parallelism == 0)
  }

  /** The string is accepted, with usable parameters and the key that the password derives. */
  ghost predicate IsMatch(kdf: Kdf, password: seq<byte>, s: string) {
    exists a :: Accepts(Split(s), a) && a.iterations > 0 && a.parallelism > 0 && Derives(kdf, password, a)
  }

  ghost predicate IsRefused(s: string) { forall a :: !Accepts(Split(s), a) }

  /** The error for the first faulty field of a string that is not accepted. */
  ghost predicate FirstFault(fields: seq<string>, e: Error) {
    if |fields| != 6 then e == CryptoError
    else if forall n :: !ReadsVersion(fields[2], n) then e == ScanError
    else if !ReadsVersion(fields[2], 19) then e == CryptoError
    else if forall m: nat, t: nat, p: nat :: !ParametersField(fields[3], m, t, p) then e == ScanError
    else e == CorruptBase64
  }

  lemma ReadsVersionIff(f: string, n: int)
    ensures ScanVersion(f) == Some(n) <==> ReadsVersion(f, n)
  {
    if "v=" <= f { SignedIff(f[2..], n); }
  }

  /** The verdict on what decodeHash makes of the fields, read off the grammar. */
  lemma FaultIs(fields: seq<string>)
    requires Decoded(fields).Err?
    ensures FirstFault(fields, Decoded(fields).error)
  {
    if |fields| == 6 {
      var version, p := ScanVersion(fields[2]), ScanParameters(fields[3]);
      forall n ensures ReadsVersion(fields[2], n) <==> version == Some(n) { ReadsVersionIff(fields[2], n); }
      forall m: nat, t: nat, q: nat ensures ParametersField(fields[3], m, t, q) <==> p == Some((m, t, q)) {
        ParametersIff(fields[3], m, t, q);
      }
      if version.Some? { assert ReadsVersion(fields[2], version.value); }
      if p.Some? { assert ParametersField(fields[3], p.value.0, p.value.1, p.value.2); }
    }
  }

  /**
    The verdict on every string and password: a match iff the string is accepted with usable parameters and the key
    the password derives; a panic iff it is accepted with unusable ones; an error, for the first faulty field, iff it
    is not accepted; and a mismatch otherwise.
   */
  ghost predicate Judges(kdf: Kdf, password: seq<byte>, s: string, v: Verdict) {
    && (v.Match? <==> IsMatch(kdf, password, s))
    && (v.Panics? <==> IsUnusable(s))
    && (v.Invalid? <==> IsRefused(s))
    && (v.Invalid? ==> FirstFault(Split(s), v.error))
  }

  lemma ComparedJudges(kdf: Kdf, password: seq<byte>, s: string)
    ensures Judges(kdf, password, s, Compared(kdf, password, Decoded(Split(s))))
  {
    var r := Decoded(Split(s));
    forall a ensures Accepts(Split(s), a) <==> r == Ok(a) { AcceptedIff(Split(s), a); }
    if r.Err? {
      FaultIs(Split(s));
    } else {
      assert Accepts(Split(s), r.argon);
    }
  }

  /** Whatever password a string was generated from, the verdict says whether the given one derives the same key. */
  ghost predicate ComparesKeys(kdf: Kdf, password: seq<byte>, s: string, v: Verdict) {
    forall m: nat, t: nat, p: nat, n: nat, original, salt | InRange(m, t, p, n) ::
      s == GenerateWith(kdf, m, t, p, n, original, salt) ==>
        (v.Match? <==> kdf(password, salt, t, m, p, n) == kdf(original, salt, t, m, p, n))
  }

  lemma GeneratedIsCompared(kdf: Kdf, password: seq<byte>, s: string)
    requires Lawful(kdf)
    ensures ComparesKeys(kdf, password, s, Compared(kdf, password, Decoded(Split(s))))
  {
    forall m: nat, t: nat, p: nat, n: nat, original, salt |
        InRange(m, t, p, n) && s == GenerateWith(kdf, m, t, p, n, original, salt)
      ensures Compared(kdf, password, Decoded(Split(s))).Match? <==>
              kdf(password, salt, t, m, p, n) == kdf(original, salt, t, m, p, n)
    {
      GeneratedWithMatches(kdf, m, t, p, n, original, password, salt);
    }
  }

  /**
    decodeHash, lines 86-120: the fields of p are filled one after the other, each with its own early return. What it
    accepts is canonical, and a printed string gives back exactly the values printed.
   */
  method DecodeHash(encodedHash: string) returns (r: Result)
    ensures r == Decoded(Split(encodedHash))
    ensures r.Ok? ==> Canonical(Split(encodedHash), r.argon)
    ensures GivesPrinted(encodedHash, r)
  {
    PrintedIsRead(encodedHash);
    AcceptedIsCanonical(Split(encodedHash));
    var values := Split(encodedHash);
    if |values| != 6 { return Err(CryptoError); }

    var version := ScanVersion(values[2]);
    if version.None? { return Err(ScanError); }
    if version.value != VERSION { return Err(CryptoError); }

    var p := Argon(0, 0, 0, 0, 0, [], []);
    var parameters := ScanParameters(values[3]);
    if parameters.None? { return Err(ScanError); }
    p := p.(memory := parameters.value.0, iterations := parameters.value.1, parallelism := parameters.value.2);

    var salt := Decode(values[4]);
    if salt.None? { return Err(CorruptBase64); }
    p := p.(salt := salt.value);
    p := p.(saltLength := |p.salt| % UINT32);

    var hash := Decode(values[5]);
    if hash.None? { return Err(CorruptBase64); }
    p := p.(hash := hash.value);
    p := p.(keyLength := |p.hash| % UINT32);
    return Ok(p);
  }

  /**
    ComparePasswordAndHash, lines 68-84; IDKey panics for zero passes or zero threads. Every string is judged by the
    grammar of accepted strings; one generated from some password matches exactly the passwords that derive the same
    key.
   */
  method Compare(kdf: Kdf, password: seq<byte>, encodedHash: string) returns (v: Verdict)
    ensures v == Compared(kdf, password, Decoded(Split(encodedHash)))
    ensures Judges(kdf, password, encodedHash, v)
    ensures Lawful(kdf) ==> ComparesKeys(kdf, password, encodedHash, v)
  {
    ComparedJudges(kdf, password, encodedHash);
    if Lawful(kdf) { GeneratedIsCompared(kdf, password, encodedHash); }
    var r := DecodeHash(encodedHash);
    if r.Err? { return Invalid(r.error); }
    var a := r.argon;
    if a.iterations == 0 || a.parallelism == 0 { return Panics; }
    var other := kdf(password, a.salt, a.iterations, a.memory, a.parallelism, a.keyLength);
    return if a.hash == other then Match else Mismatch;
  }
}
