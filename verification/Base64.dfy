/**
  Base64 without padding (section 4 of RFC 4648), in the strict decoding used for stored password hashes: line breaks
  are skipped, and the unused bits of the last character must be zero.

  A byte is four pairs of bits and a character stands for three, so the codec regroups pairs of bits.
 */
module Base64 {
  import opened Wrappers

  type byte = x: int | 0 <= x < 256
  type pair = x: int | 0 <= x < 4
  type index = x: int | 0 <= x < 64

  datatype Octet = Octet(a: pair, b: pair, c: pair, d: pair)
  datatype Sextet = Sextet(a: pair, b: pair, c: pair)

  // --- Bytes and octets ---

  /** A number and its last pair of bits. */
  lemma LastPair(n: nat, p: pair)
    ensures n / 4 * 4 + n % 4 == n && (n * 4 + p) / 4 == n && (n * 4 + p) % 4 == p
  {}

  function OctetOf(x: byte): Octet { Octet(x / 4 / 4 / 4, x / 4 / 4 % 4, x / 4 % 4, x % 4) }
  function ByteOf(o: Octet): byte { ((o.a * 4 + o.b) * 4 + o.c) * 4 + o.d }

  lemma ByteOfOctet(x: byte)
    ensures ByteOf(OctetOf(x)) == x
  {
    LastPair(x, 0);
    LastPair(x / 4, 0);
    LastPair(x / 4 / 4, 0);
  }

  lemma OctetOfByte(o: Octet)
    ensures OctetOf(ByteOf(o)) == o
  {
    LastPair(o.a, o.b);
    LastPair(o.a * 4 + o.b, o.c);
    LastPair((o.a * 4 + o.b) * 4 + o.c, o.d);
  }

  function Octets(b: seq<byte>): seq<Octet> { seq(|b|, i requires 0 <= i < |b| => OctetOf(b[i])) }
  function Bytes(o: seq<Octet>): seq<byte> { seq(|o|, i requires 0 <= i < |o| => ByteOf(o[i])) }

  lemma BytesOctets(b: seq<byte>, o: seq<Octet>)
    ensures Bytes(Octets(b)) == b && Octets(Bytes(o)) == o
  {
    forall i | 0 <= i < |b| ensures Bytes(Octets(b))[i] == b[i] {
      ByteOfOctet(b[i]);
    }
    forall i | 0 <= i < |o| ensures Octets(Bytes(o))[i] == o[i] {
      OctetOfByte(o[i]);
    }
  }

  // --- Characters and sextets ---

  function SextetOf(n: index): Sextet { Sextet(n / 4 / 4, n / 4 % 4, n % 4) }
  function IndexOf(q: Sextet): index { (q.a * 4 + q.b) * 4 + q.c }

  lemma IndexOfSextet(n: index)
    ensures IndexOf(SextetOf(n)) == n
  {
    LastPair(n, 0);
    LastPair(n / 4, 0);
  }

  lemma SextetOfIndex(q: Sextet)
    ensures SextetOf(IndexOf(q)) == q
  {
    LastPair(q.a, q.b);
    LastPair(q.a * 4 + q.b, q.c);
  }

  /** The alphabet, and the position of a character in it. */
  function Letter(n: index): char {
    if n < 26 then 'A' + n as char
    else if n < 52 then 'a' + (n - 26) as char
    else if n < 62 then '0' + (n - 52) as char
    else if n == 62 then '+'
    else '/'
  }

  function Position(c: char): Option<index> {
    if 'A' <= c <= 'Z' then Some(c as int - 'A' as int)
    else if 'a' <= c <= 'z' then Some(c as int - 'a' as int + 26)
    else if '0' <= c <= '9' then Some(c as int - '0' as int + 52)
    else if c == '+' then Some(62)
    else if c == '/' then Some(63)
    else None
  }

  lemma Alphabet(n: index, c: char)
    ensures Position(c) == Some(n) <==> c == Letter(n)
  {}

  function Digit(q: Sextet): char { Letter(IndexOf(q)) }

  function Value(c: char): Option<Sextet> {
    var n := Position(c);
    if n.None? then None else Some(SextetOf(n.value))
  }

  lemma DigitValue(q: Sextet)
    ensures Value(Digit(q)) == Some(q)
  {
    SextetOfIndex(q);
    Alphabet(IndexOf(q), Digit(q));
  }

  lemma ValueDigit(c: char)
    ensures Value(c).Some? ==> Digit(Value(c).value) == c
  {
    if n: index :| Position(c) == Some(n) {
      IndexOfSextet(n);
      Alphabet(n, c);
    }
  }

  function Digits(q: seq<Sextet>): string { seq(|q|, i requires 0 <= i < |q| => Digit(q[i])) }

  function Values(s: string): (r: Option<seq<Sextet>>)
    ensures r.Some? ==> |r.value| == |s| && forall i :: 0 <= i < |s| ==> Value(s[i]) == Some(r.value[i])
    ensures r.None? ==> exists i :: 0 <= i < |s| && Value(s[i]).None?
  {
    if s == "" then Some([])
    else
      var rest := Values(s[1..]);
      if Value(s[0]).None? || rest.None? then None else Some([Value(s[0]).value] + rest.value)
  }

  lemma ValuesOfDigits(q: seq<Sextet>)
    ensures Values(Digits(q)) == Some(q)
  {
    var r := Values(Digits(q));
    forall i | 0 <= i < |q| ensures Value(Digits(q)[i]) == Some(q[i]) {
      DigitValue(q[i]);
    }
    assert r.Some?;
    assert r.value == q;
  }

  lemma DigitsOfValues(s: string)
    requires Values(s).Some?
    ensures Digits(Values(s).value) == s
  {
    forall i | 0 <= i < |s| ensures Digits(Values(s).value)[i] == s[i] {
      ValueDigit(s[i]);
    }
  }

  // --- Octets and sextets ---

  /** Octets cut into sextets; the last one is filled up with zero bits. */
  function Cut(o: seq<Octet>): seq<Sextet> {
    if |o| == 0 then []
    else if |o| == 1 then [Sextet(o[0].a, o[0].b, o[0].c), Sextet(o[0].d, 0, 0)]
    else if |o| == 2 then
      [Sextet(o[0].a, o[0].b, o[0].c), Sextet(o[0].d, o[1].a, o[1].b), Sextet(o[1].c, o[1].d, 0)]
    else
      [Sextet(o[0].a, o[0].b, o[0].c), Sextet(o[0].d, o[1].a, o[1].b), Sextet(o[1].c, o[1].d, o[2].a),
       Sextet(o[2].b, o[2].c, o[2].d)] + Cut(o[3..])
  }

  /** Sextets packed into octets; None for a single last sextet and for fill bits that are not zero. */
  function Pack(q: seq<Sextet>): Option<seq<Octet>> {
    if |q| == 0 then Some([])
    else if |q| == 1 then None
    else if |q| == 2 then
      if q[1].b != 0 || q[1].c != 0 then None else Some([Octet(q[0].a, q[0].b, q[0].c, q[1].a)])
    else if |q| == 3 then
      if q[2].c != 0 then None
      else Some([Octet(q[0].a, q[0].b, q[0].c, q[1].a), Octet(q[1].b, q[1].c, q[2].a, q[2].b)])
    else
      var rest := Pack(q[4..]);
      if rest.None? then None
      else
        Some([Octet(q[0].a, q[0].b, q[0].c, q[1].a), Octet(q[1].b, q[1].c, q[2].a, q[2].b),
              Octet(q[2].c, q[3].a, q[3].b, q[3].c)] + rest.value)
  }

  lemma {:induction false} PackOfCut(o: seq<Octet>)
    ensures Pack(Cut(o)) == Some(o)
  {
    if |o| == 0 {
    } else if |o| == 1 {
      assert o == [o[0]];
    } else if |o| == 2 {
      assert o == [o[0], o[1]];
    } else {
      PackOfCut(o[3..]);
      assert Cut(o)[4..] == Cut(o[3..]);
      assert o == [o[0], o[1], o[2]] + o[3..];
    }
  }

  lemma {:induction false} CutOfPack(q: seq<Sextet>)
    requires Pack(q).Some?
    ensures Cut(Pack(q).value) == q
  {
    if |q| == 0 {
    } else if |q| == 2 {
      assert q == [q[0], q[1]];
    } else if |q| == 3 {
      assert q == [q[0], q[1], q[2]];
    } else {
      CutOfPack(q[4..]);
      assert Pack(q).value[3..] == Pack(q[4..]).value;
      assert q == [q[0], q[1], q[2], q[3]] + q[4..];
    }
  }

  // --- The codec ---

  function Encode(b: seq<byte>): string { Digits(Cut(Octets(b))) }

  function WithoutLineBreaks(s: string): string {
    if s == "" then ""
    else if s[0] == '\n' || s[0] == '\r' then WithoutLineBreaks(s[1..])
    else [s[0]] + WithoutLineBreaks(s[1..])
  }

  /** RawStdEncoding.Strict().DecodeString. */
  function Decode(s: string): Option<seq<byte>> {
    var q := Values(WithoutLineBreaks(s));
    if q.None? then None
    else
      var o := Pack(q.value);
      if o.None? then None else Some(Bytes(o.value))
  }

  /** Every character of an encoding is in the alphabet. */
  lemma EncodeAlphabet(b: seq<byte>)
    ensures forall i :: 0 <= i < |Encode(b)| ==> Value(Encode(b)[i]).Some?
  {
    forall i | 0 <= i < |Encode(b)| ensures Value(Encode(b)[i]).Some? {
      DigitValue(Cut(Octets(b))[i]);
    }
  }

  lemma {:induction false} NoLineBreaks(s: string)
    requires forall i :: 0 <= i < |s| ==> s[i] != '\n' && s[i] != '\r'
    ensures WithoutLineBreaks(s) == s
  {
    if s == "" {
    } else {
      NoLineBreaks(s[1..]);
    }
  }

  lemma EncodingHasNoLineBreaks(b: seq<byte>)
    ensures WithoutLineBreaks(Encode(b)) == Encode(b)
  {
    EncodeAlphabet(b);
    forall i | 0 <= i < |Encode(b)| ensures Encode(b)[i] != '\n' && Encode(b)[i] != '\r' {
      assert Value(Encode(b)[i]).Some?;
    }
    NoLineBreaks(Encode(b));
  }

  /** Strict decoding accepts exactly the encodings, up to line breaks, and inverts them. */
  lemma StrictInverse(s: string, b: seq<byte>)
    ensures Decode(s) == Some(b) <==> WithoutLineBreaks(s) == Encode(b)
    ensures Decode(Encode(b)) == Some(b)
  {
    ValuesOfDigits(Cut(Octets(b)));
    PackOfCut(Octets(b));
    BytesOctets(b, Octets(b));
    EncodingHasNoLineBreaks(b);
    if Decode(s) == Some(b) {
      var t := WithoutLineBreaks(s);
      var o := Pack(Values(t).value).value;
      BytesOctets(b, o);
      CutOfPack(Values(t).value);
      DigitsOfValues(t);
    }
  }

  // --- What the encoding is ---

  /** The alphabet, by character codes: upper case, lower case, digits, plus and slash. */
  lemma LetterIs(n: index)
    ensures Letter(n) as int
         == if n < 26 then 65 + n else if n < 52 then 71 + n else if n < 62 then n - 4 else if n == 62 then 43 else 47
  {}

  /** The numbers of a group of three bytes, as section 4 of RFC 4648 cuts their 24 bits. */
  function First(x: byte): index { x / 4 }
  function Second(x: byte, y: byte): index { x % 4 * 16 + y / 16 }
  function Third(y: byte, z: byte): index { y % 16 * 4 + z / 64 }
  function Fourth(z: byte): index { z % 64 }

  lemma CutIs(x: byte, y: byte, z: byte)
    ensures var o, p, q := OctetOf(x), OctetOf(y), OctetOf(z);
            && IndexOf(Sextet(o.a, o.b, o.c)) == First(x)
            && IndexOf(Sextet(o.d, p.a, p.b)) == Second(x, y)
            && IndexOf(Sextet(p.c, p.d, q.a)) == Third(y, z)
            && IndexOf(Sextet(q.b, q.c, q.d)) == Fourth(z)
  {}

  lemma DigitAt(q: seq<Sextet>, i: nat, n: index)
    requires i < |q| && IndexOf(q[i]) == n
    ensures Digits(q)[i] == Letter(n)
  {}

  lemma DigitsTail(q: seq<Sextet>, k: nat)
    requires k <= |q|
    ensures Digits(q)[k..] == Digits(q[k..])
  {}

  /** The encoding of a group of three bytes, and of what follows. */
  lemma EncodeIs(b: seq<byte>)
    requires |b| >= 3
    ensures |Encode(b)| >= 4 && Encode(b)[4..] == Encode(b[3..])
    ensures Encode(b)[0] == Letter(First(b[0])) && Encode(b)[1] == Letter(Second(b[0], b[1]))
    ensures Encode(b)[2] == Letter(Third(b[1], b[2])) && Encode(b)[3] == Letter(Fourth(b[2]))
  {
    var q := Cut(Octets(b));
    assert Octets(b)[3..] == Octets(b[3..]);
    assert q[4..] == Cut(Octets(b[3..]));
    DigitsTail(q, 4);
    CutIs(b[0], b[1], b[2]);
    DigitAt(q, 0, First(b[0]));
    DigitAt(q, 1, Second(b[0], b[1]));
    DigitAt(q, 2, Third(b[1], b[2]));
    DigitAt(q, 3, Fourth(b[2]));
  }

  /** With zero bits in the place of missing bytes. */
  lemma CutFilled(x: byte, y: byte)
    ensures var o, p := OctetOf(x), OctetOf(y);
            && IndexOf(Sextet(o.a, o.b, o.c)) == First(x)
            && IndexOf(Sextet(o.d, 0, 0)) == Second(x, 0)
            && IndexOf(Sextet(o.d, p.a, p.b)) == Second(x, y)
            && IndexOf(Sextet(p.c, p.d, 0)) == Third(y, 0)
  {
    assert OctetOf(0) == Octet(0, 0, 0, 0);
    CutIs(x, 0, 0);
    CutIs(x, y, 0);
  }

  lemma FirstFilled(x: byte)
    ensures IndexOf(Sextet(OctetOf(x).a, OctetOf(x).b, OctetOf(x).c)) == First(x)
    ensures IndexOf(Sextet(OctetOf(x).d, 0, 0)) == Second(x, 0)
  {
    CutFilled(x, x);
  }

  /** The last group is filled up with zero bits, and not padded: one byte is left, or two. */
  lemma OneByteIs(b: seq<byte>)
    requires |b| == 1
    ensures |Encode(b)| == 2 && Encode(b)[0] == Letter(First(b[0])) && Encode(b)[1] == Letter(Second(b[0], 0))
  {
    var q := Cut(Octets(b));
    FirstFilled(b[0]);
    DigitAt(q, 0, First(b[0]));
    DigitAt(q, 1, Second(b[0], 0));
  }

  lemma TwoBytesAre(b: seq<byte>)
    requires |b| == 2
    ensures |Encode(b)| == 3 && Encode(b)[0] == Letter(First(b[0]))
    ensures Encode(b)[1] == Letter(Second(b[0], b[1])) && Encode(b)[2] == Letter(Third(b[1], 0))
  {
    var q := Cut(Octets(b));
    CutFilled(b[0], b[1]);
    DigitAt(q, 0, First(b[0]));
    DigitAt(q, 1, Second(b[0], b[1]));
    DigitAt(q, 2, Third(b[1], 0));
  }
}
