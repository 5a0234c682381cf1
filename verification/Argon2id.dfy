/**
  The self-describing argon2id hash string: its printer, its parser, and the verification built on
  them. Base64 is the unpadded standard encoding of sections 3.2 and 4 of RFC 4648, and the parser
  accepts what the scanning functions of the program accept, not only what the printer writes.
*/
module Argon2id {
  import opened Prelude

  type Byte = b: int | 0 <= b < 256

  const VERSION: nat := 19
  const UINT8: nat := 0x100
  const UINT32: nat := 0x1_0000_0000
  const INT64: int := 0x8000_0000_0000_0000

  datatype Params = Params(time: nat, memory: nat, threads: nat, keyLen: nat, saltLen: nat)

  predicate InRange(p: Params) {
    p.time < UINT32 && p.memory < UINT32 && p.threads < UINT8 && p.keyLen < UINT32 && p.saltLen < UINT32
  }

  const DEFAULTS := Params(2, 64 * 1024, 4, 32, 16)

  // ----- Decimal numbers -----

  predicate IsDigit(c: char) { '0' <= c <= '9' }

  function DigitValue(c: char): nat
    requires IsDigit(c)
  {
    c as int - '0' as int
  }

  function Digit(n: nat): (c: char)
    requires n < 10
    ensures IsDigit(c) && DigitValue(c) == n
  {
    (n + '0' as int) as char
  }

  /** %d */
  function Decimal(n: nat): (s: string)
    ensures |s| > 0 && forall i | 0 <= i < |s| :: IsDigit(s[i])
  {
    if n < 10 then [Digit(n)] else Decimal(n / 10) + [Digit(n % 10)]
  }

  function ValueOf(s: string): nat
    requires forall i | 0 <= i < |s| :: IsDigit(s[i])
  {
    if s == [] then 0 else 10 * ValueOf(s[..|s| - 1]) + DigitValue(s[|s| - 1])
  }

  lemma {:induction false} DecimalValue(n: nat)
    ensures ValueOf(Decimal(n)) == n
  {
    if n >= 10 {
      DecimalValue(n / 10);
      assert Decimal(n)[..|Decimal(n)| - 1] == Decimal(n / 10);
    }
  }

  /** How many digits the string begins with. */
  function DigitCount(s: string): (k: nat)
    ensures k <= |s| && forall i | 0 <= i < k :: IsDigit(s[i])
    ensures k < |s| ==> !IsDigit(s[k])
  {
    if s == [] || !IsDigit(s[0]) then 0 else 1 + DigitCount(s[1..])
  }

  predicate IsBlank(c: char) { c as int in {9, 11, 12, 13, 32} }

  function SkipBlanks(s: string): string {
    if s != [] && IsBlank(s[0]) then SkipBlanks(s[1..]) else s
  }

  /** The %d verb into an unsigned integer below `limit`: blanks, then digits; what follows is left. */
  function ScanUint(s: string, limit: nat): Option<(nat, string)> {
    var t := SkipBlanks(s);
    var k := DigitCount(t);
    if k == 0 || ValueOf(t[..k]) >= limit then None else Some((ValueOf(t[..k]), t[k..]))
  }

  /** The %d verb into a signed integer: an optional sign is accepted too. */
  function ScanInt(s: string): Option<(int, string)> {
    var t := SkipBlanks(s);
    var signed := t != [] && (t[0] == '-' || t[0] == '+');
    var u := if signed then t[1..] else t;
    var k := DigitCount(u);
    if k == 0 then None
    else
      var magnitude: int := ValueOf(u[..k]);
      var v := if signed && t[0] == '-' then 0 - magnitude else magnitude;
      if v < 0 - INT64 || v >= INT64 then None else Some((v, u[k..]))
  }

  /** A literal stretch of a scan format. */
  function Literal(s: string, lit: string): Option<string> {
    if lit <= s then Some(s[|lit|..]) else None
  }

  /** The number stops where the digits stop. */
  predicate Ends(rest: string) { rest == [] || !IsDigit(rest[0]) }

  lemma CountIs(s: string, k: nat)
    requires k <= |s| && (forall i | 0 <= i < k :: IsDigit(s[i])) && (k < |s| ==> !IsDigit(s[k]))
    ensures DigitCount(s) == k
  {
  }

  lemma ScanDecimal(n: nat, rest: string, limit: nat)
    requires Ends(rest) && n < limit
    ensures ScanUint(Decimal(n) + rest, limit) == Some((n, rest))
    ensures n < INT64 ==> ScanInt(Decimal(n) + rest) == Some((n, rest))
  {
    var s := Decimal(n) + rest;
    assert s[0] == Decimal(n)[0];
    CountIs(s, |Decimal(n)|);
    DecimalValue(n);
    assert s[..|Decimal(n)|] == Decimal(n) && s[|Decimal(n)|..] == rest;
  }

  /** Blanks before a number are passed over. */
  lemma {:induction false} ScanAfterBlanks(blanks: string, n: nat, rest: string, limit: nat)
    requires Ends(rest) && n < limit && forall i | 0 <= i < |blanks| :: blanks[i] as int in {9, 11, 12, 13, 32}
    ensures ScanUint(blanks + Decimal(n) + rest, limit) == Some((n, rest))
  {
    var s := blanks + Decimal(n) + rest;
    if blanks == [] {
      assert s == Decimal(n) + rest;
      ScanDecimal(n, rest, limit);
    } else {
      assert s[1..] == blanks[1..] + Decimal(n) + rest && s[0] == blanks[0] && IsBlank(s[0]);
      ScanAfterBlanks(blanks[1..], n, rest, limit);
    }
  }

  /** A number at or above the limit is refused. */
  lemma ScanTooLarge(n: nat, rest: string, limit: nat)
    requires Ends(rest) && limit <= n
    ensures ScanUint(Decimal(n) + rest, limit) == None
    ensures INT64 <= n ==> ScanInt(Decimal(n) + rest) == None
  {
    var s := Decimal(n) + rest;
    assert s[0] == Decimal(n)[0];
    CountIs(s, |Decimal(n)|);
    DecimalValue(n);
    assert s[..|Decimal(n)|] == Decimal(n);
  }

  /** The version may carry a sign. */
  lemma ScanSigned(n: nat, rest: string)
    requires Ends(rest) && n < INT64
    ensures ScanInt("-" + (Decimal(n) + rest)) == Some((0 - n, rest))
    ensures ScanInt("+" + (Decimal(n) + rest)) == Some((n, rest))
  {
    ScanAfterSign('-', n, rest);
    ScanAfterSign('+', n, rest);
  }

  lemma ScanAfterSign(sign: char, n: nat, rest: string)
    requires Ends(rest) && n < INT64 && (sign == '-' || sign == '+')
    ensures ScanInt([sign] + (Decimal(n) + rest)) == Some((if sign == '-' then 0 - n else n, rest))
  {
    var s := Decimal(n) + rest;
    CountIs(s, |Decimal(n)|);
    DecimalValue(n);
    assert s[..|Decimal(n)|] == Decimal(n) && s[|Decimal(n)|..] == rest;
    assert ([sign] + s)[1..] == s && SkipBlanks([sign] + s) == [sign] + s;
  }

  /** No leading zero, and the most significant digit first. */
  lemma {:induction false} DecimalForm(n: nat)
    ensures Decimal(n)[0] == '0' ==> n == 0
    ensures Decimal(1203) == "1203"
  {
    if n >= 10 {
      DecimalForm(n / 10);
    }
  }

  // ----- Base64 -----

  function Sextet(v: nat): (c: char)
    requires v < 64
  {
    if v < 26 then (v + 'A' as int) as char
    else if v < 52 then (v - 26 + 'a' as int) as char
    else if v < 62 then (v - 52 + '0' as int) as char
    else if v == 62 then '+' else '/'
  }

  function SextetValue(c: char): (v: Option<nat>)
    ensures v.Some? ==> v.value < 64
  {
    if 'A' <= c <= 'Z' then Some(c as int - 'A' as int)
    else if 'a' <= c <= 'z' then Some(c as int - 'a' as int + 26)
    else if IsDigit(c) then Some(c as int - '0' as int + 52)
    else if c == '+' then Some(62)
    else if c == '/' then Some(63)
    else None
  }

  lemma SextetRoundTrip(v: nat)
    requires v < 64
    ensures SextetValue(Sextet(v)) == Some(v) && Sextet(v) != '$' && Sextet(v) != '\n' && Sextet(v) != '\r'
  {
  }

  /** The 6-bit groups of the bytes; a last group of one or two bytes is filled up with zero bits. */
  function Sextets(b: seq<Byte>): (v: seq<nat>)
    ensures forall i | 0 <= i < |v| :: v[i] < 64
  {
    if |b| == 0 then []
    else if |b| == 1 then [b[0] / 4, b[0] % 4 * 16]
    else if |b| == 2 then [b[0] / 4, b[0] % 4 * 16 + b[1] / 16, b[1] % 16 * 4]
    else [b[0] / 4, b[0] % 4 * 16 + b[1] / 16, b[1] % 16 * 4 + b[2] / 64, b[2] % 64] + Sextets(b[3..])
  }

  function Chars(v: seq<nat>): (s: string)
    requires forall i | 0 <= i < |v| :: v[i] < 64
    ensures |s| == |v| && forall i | 0 <= i < |v| :: s[i] == Sextet(v[i])
  {
    seq(|v|, i requires 0 <= i < |v| => Sextet(v[i]))
  }

  /** RawStdEncoding.EncodeToString */
  function Encode64(b: seq<Byte>): string { Chars(Sextets(b)) }

  /** The decoder passes over line breaks anywhere. */
  function StripBreaks(s: string): (r: string)
    ensures |r| <= |s|
  {
    if s == [] then []
    else if s[0] == '\n' || s[0] == '\r' then StripBreaks(s[1..])
    else [s[0]] + StripBreaks(s[1..])
  }

  /** Any character outside the alphabet is an error. */
  function Values(s: string): (r: Option<seq<nat>>)
    ensures r.Some? ==> |r.value| == |s| && forall i | 0 <= i < |s| :: r.value[i] < 64
  {
    if s == [] then Some([])
    else
      var v :- SextetValue(s[0]);
      var rest :- Values(s[1..]);
      Some([v] + rest)
  }

  /** A last group of two or three ends the text and its spare low bits are ignored; one alone is an error. */
  function Bytes(v: seq<nat>): Option<seq<Byte>>
    requires forall i | 0 <= i < |v| :: v[i] < 64
  {
    if |v| == 0 then Some([])
    else if |v| == 1 then None
    else if |v| == 2 then Some([v[0] * 4 + v[1] / 16])
    else if |v| == 3 then Some([v[0] * 4 + v[1] / 16, v[1] % 16 * 16 + v[2] / 4])
    else
      var rest :- Bytes(v[4..]);
      Some([v[0] * 4 + v[1] / 16, v[1] % 16 * 16 + v[2] / 4, v[2] % 4 * 64 + v[3]] + rest)
  }

  /** RawStdEncoding.DecodeString */
  function Decode64(s: string): Option<seq<Byte>> {
    var v :- Values(StripBreaks(s));
    Bytes(v)
  }

  predicate Plain(s: string) { forall i | 0 <= i < |s| :: s[i] != '$' && s[i] != '\n' && s[i] != '\r' }

  lemma EncodedIsPlain(b: seq<Byte>)
    ensures Plain(Encode64(b))
  {
  }

  lemma {:induction false} PlainIsNotStripped(s: string)
    requires Plain(s)
    ensures StripBreaks(s) == s
  {
    if s != [] {
      PlainIsNotStripped(s[1..]);
      assert s == [s[0]] + s[1..];
    }
  }

  lemma {:induction false} CharsRoundTrip(v: seq<nat>)
    requires forall i | 0 <= i < |v| :: v[i] < 64
    ensures Values(Chars(v)) == Some(v)
  {
    if v != [] {
      SextetRoundTrip(v[0]);
      assert Chars(v)[1..] == Chars(v[1..]);
      CharsRoundTrip(v[1..]);
      assert v == [v[0]] + v[1..];
    }
  }

  /** Four sextets carry three bytes. */
  lemma SextetsCarryBytes(b0: Byte, b1: Byte, b2: Byte)
    ensures var v1, v2 := b0 % 4 * 16 + b1 / 16, b1 % 16 * 4 + b2 / 64;
            && v1 / 16 == b0 % 4 && v1 % 16 == b1 / 16 && v2 / 4 == b1 % 16 && v2 % 4 == b2 / 64
  {
  }

  lemma {:induction false} BytesRoundTrip(b: seq<Byte>)
    ensures Bytes(Sextets(b)) == Some(b)
  {
    if |b| == 1 {
      SextetsCarryBytes(b[0], 0, 0);
      assert b == [b[0]];
    } else if |b| == 2 {
      SextetsCarryBytes(b[0], b[1], 0);
      assert b == [b[0], b[1]];
    } else if |b| > 2 {
      SextetsCarryBytes(b[0], b[1], b[2]);
      BytesRoundTrip(b[3..]);
      assert Sextets(b)[4..] == Sextets(b[3..]);
      assert b == [b[0], b[1], b[2]] + b[3..];
    }
  }

  /** Decoding the encoding of any bytes gives them back. */
  lemma Base64RoundTrip(b: seq<Byte>)
    ensures Decode64(Encode64(b)) == Some(b)
  {
    EncodedIsPlain(b);
    PlainIsNotStripped(Encode64(b));
    CharsRoundTrip(Sextets(b));
    BytesRoundTrip(b);
  }

  /** The alphabet of table 1 of RFC 4648, by its stretches. */
  lemma Alphabet(v: nat)
    requires v < 63
    ensures Sextet(0) == 'A' && Sextet(25) == 'Z' && Sextet(26) == 'a' && Sextet(51) == 'z'
    ensures Sextet(52) == '0' && Sextet(61) == '9' && Sextet(62) == '+' && Sextet(63) == '/'
    ensures v !in {25, 51, 61, 62} ==> Sextet(v + 1) as int == Sextet(v) as int + 1
  {
  }

  /** Three bytes make four characters, from the high bits to the low; a last byte two, last two bytes three. */
  lemma EncodedGroups(a: Byte, b: Byte, c: Byte, rest: seq<Byte>)
    ensures Encode64([]) == ""
    ensures Encode64([a]) == [Sextet(a / 4), Sextet(a % 4 * 16)]
    ensures Encode64([a, b]) == [Sextet(a / 4), Sextet(a % 4 * 16 + b / 16), Sextet(b % 16 * 4)]
    ensures Encode64([a, b, c] + rest) ==
            [Sextet(a / 4), Sextet(a % 4 * 16 + b / 16), Sextet(b % 16 * 4 + c / 64), Sextet(c % 64)] + Encode64(rest)
  {
    var all := [a, b, c] + rest;
    assert all[3..] == rest;
    var v: seq<nat> := [a / 4, a % 4 * 16 + b / 16, b % 16 * 4 + c / 64, c % 64];
    assert Sextets(all) == v + Sextets(rest);
  }

  predicate InAlphabet(s: string) { forall i | 0 <= i < |s| :: SextetValue(s[i]).Some? }

  lemma {:induction false} ValuesIff(s: string)
    ensures Values(s).Some? <==> InAlphabet(s)
  {
    if s != [] {
      ValuesIff(s[1..]);
      assert forall i | 1 <= i < |s| :: s[i] == s[1..][i - 1];
    }
  }

  lemma {:induction false} BytesIff(v: seq<nat>)
    requires forall i | 0 <= i < |v| :: v[i] < 64
    ensures Bytes(v).Some? <==> |v| % 4 != 1
  {
    if |v| >= 4 {
      BytesIff(v[4..]);
    }
  }

  /** Line breaks aside, a text decodes if and only if all of it is in the alphabet and no character is left over. */
  lemma DecodesIff(s: string)
    ensures Decode64(s).Some? <==> InAlphabet(StripBreaks(s)) && |StripBreaks(s)| % 4 != 1
  {
    ValuesIff(StripBreaks(s));
    var v := Values(StripBreaks(s));
    if v.Some? {
      BytesIff(v.value);
    }
  }

  /** Line breaks, and nothing else, are dropped wherever they are. */
  lemma {:induction false} BreaksDropped(s: string, t: string)
    ensures StripBreaks(s + t) == StripBreaks(s) + StripBreaks(t)
  {
    if s == [] {
      assert s + t == t;
    } else {
      BreaksDropped(s[1..], t);
      assert (s + t)[1..] == s[1..] + t;
    }
  }

  lemma BreakOrNot(c: char)
    ensures StripBreaks([c]) == if c == '\n' || c == '\r' then "" else [c]
  {
  }

  // ----- Splitting at '$' -----

  function FirstDollar(s: string): (i: nat)
    ensures i <= |s| && forall j | 0 <= j < i :: s[j] != '$'
    ensures i < |s| ==> s[i] == '$'
  {
    if s == [] || s[0] == '$' then 0 else 1 + FirstDollar(s[1..])
  }

  function Split(s: string): (parts: seq<string>)
    decreases |s|
  {
    var i := FirstDollar(s);
    if i == |s| then [s] else [s[..i]] + Split(s[i + 1..])
  }

  lemma FirstDollarIs(s: string, k: nat)
    requires k < |s| && s[k] == '$' && '$' !in s[..k]
    ensures FirstDollar(s) == k
  {
  }

  lemma SplitHead(a: string, rest: string)
    requires '$' !in a
    ensures Split(a + "$" + rest) == [a] + Split(rest)
  {
    var s := a + "$" + rest;
    assert s[..|a|] == a && s[|a|] == '$' && s[|a| + 1..] == rest;
    FirstDollarIs(s, |a|);
  }

  lemma SplitLast(a: string)
    requires '$' !in a
    ensures Split(a) == [a]
  {
  }

  function Join(parts: seq<string>): string
    requires parts != []
  {
    if |parts| == 1 then parts[0] else parts[0] + "$" + Join(parts[1..])
  }

  lemma {:induction false} SplitJoin(parts: seq<string>)
    requires parts != [] && forall i | 0 <= i < |parts| :: '$' !in parts[i]
    ensures Split(Join(parts)) == parts
  {
    if |parts| == 1 {
      SplitLast(parts[0]);
    } else {
      SplitHead(parts[0], Join(parts[1..]));
      SplitJoin(parts[1..]);
      assert parts == [parts[0]] + parts[1..];
    }
  }

  // ----- The hash string -----

  const PREFIX: string := "$argon2id$"

  function PrintParams(p: Params): string {
    "m=" + (Decimal(p.memory) + (",t=" + (Decimal(p.time) + (",p=" + Decimal(p.threads)))))
  }

  function Parts(hash: seq<Byte>, salt: seq<Byte>, p: Params): seq<string> {
    ["", "argon2id", "v=" + Decimal(VERSION), PrintParams(p), Encode64(salt), Encode64(hash)]
  }

  /** encodeArgon2id */
  function Encode(hash: seq<Byte>, salt: seq<Byte>, p: Params): string {
    Join(Parts(hash, salt, p))
  }

  datatype Decoded = Decoded(hash: seq<Byte>, salt: seq<Byte>, params: Params)

  function ScanVersion(s: string): Option<int> {
    var rest :- Literal(s, "v=");
    var v :- ScanInt(rest);
    Some(v.0)
  }

  /** Memory, time and threads, each within the width of its field. */
  function ScanParams(s: string): Option<(nat, nat, nat)> {
    var s1 :- Literal(s, "m=");
    var m :- ScanUint(s1, UINT32);
    var s2 :- Literal(m.1, ",t=");
    var t :- ScanUint(s2, UINT32);
    var s3 :- Literal(t.1, ",p=");
    var p :- ScanUint(s3, UINT8);
    Some((m.0, t.0, p.0))
  }

  /** decodeArgon2id: the lengths are those of the decoded bytes, cut to 32 bits. */
  function Decode(encoded: string): Option<Decoded> {
    var parts := Split(encoded);
    if |parts| != 6 then None
    else
      var version :- ScanVersion(parts[2]);
      if version != VERSION then None
      else
        var mtp :- ScanParams(parts[3]);
        var salt :- Decode64(parts[4]);
        var hash :- Decode64(parts[5]);
        Some(Decoded(hash, salt, Params(mtp.1, mtp.0, mtp.2, |hash| % UINT32, |salt| % UINT32)))
  }

  lemma LiteralMatches(lit: string, rest: string)
    ensures Literal(lit + rest, lit) == Some(rest)
  {
  }

  lemma ParamsRoundTrip(p: Params)
    requires InRange(p)
    ensures ScanParams(PrintParams(p)) == Some((p.memory, p.time, p.threads))
  {
    var third := Decimal(p.threads);
    var second := Decimal(p.time) + (",p=" + third);
    var first := Decimal(p.memory) + (",t=" + second);
    LiteralMatches("m=", first);
    ScanDecimal(p.memory, ",t=" + second, UINT32);
    LiteralMatches(",t=", second);
    ScanDecimal(p.time, ",p=" + third, UINT32);
    LiteralMatches(",p=", third);
    ScanDecimal(p.threads, [], UINT8);
    assert third + [] == third;
  }

  lemma NoDollarInNumbers(p: Params)
    ensures '$' !in PrintParams(p) && '$' !in "v=" + Decimal(VERSION)
  {
  }

  lemma VersionRoundTrip()
    ensures ScanVersion("v=" + Decimal(VERSION)) == Some(VERSION)
  {
    LiteralMatches("v=", Decimal(VERSION));
    ScanDecimal(VERSION, [], UINT32);
    assert Decimal(VERSION) + [] == Decimal(VERSION);
  }

  lemma EncodeSplits(hash: seq<Byte>, salt: seq<Byte>, p: Params)
    ensures Split(Encode(hash, salt, p)) == Parts(hash, salt, p)
  {
    NoDollarInNumbers(p);
    EncodedIsPlain(salt);
    EncodedIsPlain(hash);
    SplitJoin(Parts(hash, salt, p));
  }

  /** The hash string, written out. */
  lemma EncodedForm(hash: seq<Byte>, salt: seq<Byte>, p: Params)
    ensures Encode(hash, salt, p) ==
            "$argon2id$v=19$" + (PrintParams(p) + ("$" + (Encode64(salt) + ("$" + Encode64(hash)))))
    ensures PrintParams(p) == "m=" + (Decimal(p.memory) + (",t=" + (Decimal(p.time) + (",p=" + Decimal(p.threads)))))
  {
    DecimalVersion();
    JoinSix("", "argon2id", "v=" + Decimal(VERSION), PrintParams(p), Encode64(salt), Encode64(hash));
    Header(PrintParams(p) + ("$" + (Encode64(salt) + ("$" + Encode64(hash)))));
  }

  lemma Header(rest: string)
    ensures "" + ("$" + ("argon2id" + ("$" + ("v=" + "19" + ("$" + rest))))) == "$argon2id$v=19$" + rest
  {
  }

  lemma JoinNext(a: string, parts: seq<string>)
    requires parts != []
    ensures Join([a] + parts) == a + ("$" + Join(parts))
  {
    assert ([a] + parts)[1..] == parts;
  }

  lemma JoinSix(a: string, b: string, c: string, d: string, e: string, f: string)
    ensures Join([a, b, c, d, e, f]) == a + ("$" + (b + ("$" + (c + ("$" + (d + ("$" + (e + ("$" + f)))))))))
  {
    JoinNext(a, [b, c, d, e, f]);
    JoinNext(b, [c, d, e, f]);
    JoinNext(c, [d, e, f]);
    JoinNext(d, [e, f]);
    JoinNext(e, [f]);
    assert [a] + [b, c, d, e, f] == [a, b, c, d, e, f] && [b] + [c, d, e, f] == [b, c, d, e, f];
    assert [c] + [d, e, f] == [c, d, e, f] && [d] + [e, f] == [d, e, f] && [e] + [f] == [e, f];
  }

  lemma DecimalVersion()
    ensures Decimal(19) == "19"
  {
    assert Decimal(1) == "1";
  }

  /**
    A hash string of the printed shape decodes if and only if its version is 19, its parameters fit their
    fields and its two texts are base64; a wrong one of these is an error each.
  */
  lemma PrintedDecodesIff(v: nat, p: Params, salt: string, hash: string)
    requires '$' !in salt && '$' !in hash
    ensures var d := Decode(Join(["", "argon2id", "v=" + Decimal(v), PrintParams(p), salt, hash]));
            if v == 19 && p.memory < 0x1_0000_0000 && p.time < 0x1_0000_0000 && p.threads < 0x100
               && Decode64(salt).Some? && Decode64(hash).Some?
            then d == Some(Decoded(Decode64(hash).value, Decode64(salt).value,
                                   Params(p.time, p.memory, p.threads, |Decode64(hash).value| % UINT32,
                                          |Decode64(salt).value| % UINT32)))
            else d == None
  {
    var parts := ["", "argon2id", "v=" + Decimal(v), PrintParams(p), salt, hash];
    NoDollarInNumbers(p);
    SplitJoin(parts);
    VersionScans(v);
    ParamsScan(p);
  }

  lemma VersionScans(v: nat)
    ensures ScanVersion("v=" + Decimal(v)) == if v < INT64 then Some(v) else None
  {
    LiteralMatches("v=", Decimal(v));
    assert Decimal(v) + [] == Decimal(v);
    if v < INT64 {
      ScanDecimal(v, [], v + 1);
    } else {
      ScanTooLarge(v, [], v);
    }
  }

  lemma ParamsScan(p: Params)
    ensures ScanParams(PrintParams(p)) ==
            if p.memory < UINT32 && p.time < UINT32 && p.threads < UINT8
            then Some((p.memory, p.time, p.threads)) else None
  {
    var third := Decimal(p.threads);
    var second := Decimal(p.time) + (",p=" + third);
    var first := Decimal(p.memory) + (",t=" + second);
    LiteralMatches("m=", first);
    LiteralMatches(",t=", second);
    LiteralMatches(",p=", third);
    assert third + [] == third;
    ScansIff(p.memory, ",t=" + second, UINT32);
    ScansIff(p.time, ",p=" + third, UINT32);
    ScansIff(p.threads, [], UINT8);
  }

  lemma ScansIff(n: nat, rest: string, limit: nat)
    requires Ends(rest)
    ensures ScanUint(Decimal(n) + rest, limit) == if n < limit then Some((n, rest)) else None
  {
    if n < limit {
      ScanDecimal(n, rest, limit);
    } else {
      ScanTooLarge(n, rest, limit);
    }
  }

  /** A string without exactly five separators does not decode. */
  lemma SixPartsNeeded(encoded: string)
    requires |Split(encoded)| != 6
    ensures Decode(encoded) == None
  {
  }

  /** Decoding an encoded hash returns the same bytes and cost parameters, with the lengths recovered. */
  lemma RoundTrip(hash: seq<Byte>, salt: seq<Byte>, p: Params)
    requires InRange(p)
    ensures Decode(Encode(hash, salt, p))
         == Some(Decoded(hash, salt, p.(keyLen := |hash| % UINT32, saltLen := |salt| % UINT32)))
  {
    EncodeSplits(hash, salt, p);
    VersionRoundTrip();
    ParamsRoundTrip(p);
    Base64RoundTrip(salt);
    Base64RoundTrip(hash);
  }

  // ----- Hashing and verifying -----

  /** argon2.IDKey: password, salt, time, memory, threads, key length. */
  type KeyFunction = (string, seq<Byte>, nat, nat, nat, nat) -> seq<Byte>

  ghost predicate HasKeyLength(idKey: KeyFunction) {
    forall pw, salt, t, m, p, k :: |idKey(pw, salt, t, m, p, k)| == k
  }

  /** Hash, with the salt the random source delivered. */
  function Hash(idKey: KeyFunction, p: Params, password: string, salt: seq<Byte>): string {
    Encode(idKey(password, salt, p.time, p.memory, p.threads, p.keyLen), salt, p)
  }

  predicate VerifyArgon2id(idKey: KeyFunction, password: string, encoded: string) {
    match Decode(encoded)
    case None => false
    case Some(d) => d.hash == idKey(password, d.salt, d.params.time, d.params.memory, d.params.threads, d.params.keyLen)
  }

  predicate IsBcrypt(hash: string) {
    "$2a$" <= hash || "$2b$" <= hash || "$2y$" <= hash || "$2x$" <= hash
  }

  /** DualVerifier.Verify; `bcrypt` is the foreign comparison for legacy hashes. */
  predicate Verify(idKey: KeyFunction, bcrypt: (string, string) -> bool, password: string, hash: string) {
    if PREFIX <= hash then VerifyArgon2id(idKey, password, hash)
    else IsBcrypt(hash) && bcrypt(hash, password)
  }

  predicate NeedsRehash(hash: string) {
    if IsBcrypt(hash) then true
    else if !(PREFIX <= hash) then false
    else
      match Decode(hash)
      case None => false
      case Some(d) =>
        || d.params.time < DEFAULTS.time || d.params.memory < DEFAULTS.memory
        || d.params.threads < DEFAULTS.threads
  }

  lemma EncodedHasPrefix(hash: seq<Byte>, salt: seq<Byte>, p: Params)
    ensures PREFIX <= Encode(hash, salt, p) && !IsBcrypt(Encode(hash, salt, p))
  {
    var parts := Parts(hash, salt, p);
    var rest := Join(parts[2..]);
    assert parts[1..][1..] == parts[2..];
    assert Join(parts[1..]) == "argon2id" + "$" + rest;
    var e := Encode(hash, salt, p);
    assert e == "" + "$" + ("argon2id" + "$" + rest);
    assert e == PREFIX + rest;
    assert e[1] == 'a';
  }

  lemma DecodeHash(idKey: KeyFunction, p: Params, pw: string, salt: seq<Byte>)
    requires HasKeyLength(idKey) && InRange(p)
    ensures var e := Hash(idKey, p, pw, salt);
            && PREFIX <= e
            && Decode(e) == Some(Decoded(idKey(pw, salt, p.time, p.memory, p.threads, p.keyLen), salt,
                                         p.(saltLen := |salt| % UINT32)))
  {
    var hash := idKey(pw, salt, p.time, p.memory, p.threads, p.keyLen);
    assert |hash| == p.keyLen && p.keyLen % UINT32 == p.keyLen;
    EncodedHasPrefix(hash, salt, p);
    RoundTrip(hash, salt, p);
  }

  lemma VerifyDecoded(idKey: KeyFunction, bcrypt: (string, string) -> bool, pw: string, e: string, d: Decoded)
    requires PREFIX <= e && Decode(e) == Some(d)
    ensures Verify(idKey, bcrypt, pw, e)
        <==> d.hash == idKey(pw, d.salt, d.params.time, d.params.memory, d.params.threads, d.params.keyLen)
  {
  }

  /**
    A password verifies against a stored hash exactly when it derives the same key; so the password
    that was hashed always does.
  */
  lemma VerifyAcceptsHash(idKey: KeyFunction, bcrypt: (string, string) -> bool, p: Params, pw: string, other: string,
      salt: seq<Byte>)
    requires HasKeyLength(idKey) && InRange(p)
    ensures Verify(idKey, bcrypt, other, Hash(idKey, p, pw, salt))
        <==> idKey(other, salt, p.time, p.memory, p.threads, p.keyLen)
             == idKey(pw, salt, p.time, p.memory, p.threads, p.keyLen)
    ensures Verify(idKey, bcrypt, pw, Hash(idKey, p, pw, salt))
  {
    var e := Hash(idKey, p, pw, salt);
    DecodeHash(idKey, p, pw, salt);
    VerifyDecoded(idKey, bcrypt, other, e, Decode(e).value);
    VerifyDecoded(idKey, bcrypt, pw, e, Decode(e).value);
  }

  predicate StartsWith(s: string, prefix: string) {
    |prefix| <= |s| && forall i | 0 <= i < |prefix| :: s[i] == prefix[i]
  }

  lemma PrefixIff(s: string, prefix: string)
    ensures prefix <= s <==> StartsWith(s, prefix)
  {
    if StartsWith(s, prefix) {
      assert s[..|prefix|] == prefix;
    }
  }

  /** A legacy hash verifies exactly if the bcrypt comparison of hash and password does, and is always due. */
  lemma LegacyHash(idKey: KeyFunction, bcrypt: (string, string) -> bool, pw: string, hash: string)
    requires |hash| >= 4 && hash[0] == '$' && hash[1] == '2' && hash[2] in "abxy" && hash[3] == '$'
    ensures Verify(idKey, bcrypt, pw, hash) == bcrypt(hash, pw) && NeedsRehash(hash)
  {
    PrefixIff(hash, PREFIX);
    PrefixIff(hash, "$2a$");
    PrefixIff(hash, "$2b$");
    PrefixIff(hash, "$2x$");
    PrefixIff(hash, "$2y$");
  }

  /** Any other string that does not decode is refused whatever the password, and never due. */
  lemma OtherHash(idKey: KeyFunction, bcrypt: (string, string) -> bool, pw: string, hash: string)
    requires Decode(hash).None? || !StartsWith(hash, "$argon2id$")
    requires !(|hash| >= 4 && hash[0] == '$' && hash[1] == '2' && hash[2] in "abxy" && hash[3] == '$')
    ensures !Verify(idKey, bcrypt, pw, hash) && !NeedsRehash(hash)
  {
    PrefixIff(hash, PREFIX);
    PrefixIff(hash, "$2a$");
    PrefixIff(hash, "$2b$");
    PrefixIff(hash, "$2x$");
    PrefixIff(hash, "$2y$");
  }

  /** A stored hash is due for an upgrade exactly when its cost parameters are below the defaults. */
  lemma NeedsRehashIffWeak(idKey: KeyFunction, p: Params, pw: string, salt: seq<Byte>)
    requires InRange(p)
    ensures NeedsRehash(Hash(idKey, p, pw, salt))
        <==> p.time < 2 || p.memory < 65536 || p.threads < 4
    ensures !NeedsRehash(Hash(idKey, DEFAULTS, pw, salt)) && DEFAULTS == Params(2, 65536, 4, 32, 16)
  {
    var d := DEFAULTS;
    var hash := idKey(pw, salt, p.time, p.memory, p.threads, p.keyLen);
    EncodedHasPrefix(hash, salt, p);
    RoundTrip(hash, salt, p);
    var hash' := idKey(pw, salt, d.time, d.memory, d.threads, d.keyLen);
    EncodedHasPrefix(hash', salt, d);
    RoundTrip(hash', salt, d);
  }
}
