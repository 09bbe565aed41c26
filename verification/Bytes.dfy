/** Octets, fixed-width integers in both byte orders, and hexadecimal text
    (section 8 of RFC 4648), each with the two halves of its round trip. */
module Bytes {

  type byte = b: int | 0 <= b < 256

  /** A 32-byte value: a fingerprint, a digest or a public key. */
  type Bytes32 = s: seq<byte> | |s| == 32 witness seq(32, _ => 0)

  function Zeros(n: nat): (b: seq<byte>)
    ensures |b| == n
  {
    if n == 0 then [] else [0] + Zeros(n - 1)
  }

  /** What stands in for the hash before the first entry of a chain. */
  function Zero32(): Bytes32 {
    Zeros(32)
  }

  datatype Option<+T> = None | Some(value: T)

  /** A serializer that may refuse a value, and its parser. */
  datatype Codec<!T> = Codec(encode: T -> Option<seq<byte>>, decode: seq<byte> -> Option<T>)

  /** The only thing assumed of a serialization format: parsing undoes serializing. */
  ghost predicate RoundTrips<T(!new)>(c: Codec<T>) {
    forall x :: c.encode(x).Some? ==> c.decode(c.encode(x).value) == Some(x)
  }

  function Pow256(n: nat): (p: nat)
    ensures p >= 1
  {
    if n == 0 then 1 else 256 * Pow256(n - 1)
  }

  lemma PowersOf256()
    ensures Pow256(1) == 0x100 && Pow256(2) == 0x1_0000
    ensures Pow256(4) == 0x1_0000_0000 && Pow256(8) == 0x1_0000_0000_0000_0000
  {
    assert Pow256(3) == 256 * Pow256(2);
    assert Pow256(5) == 256 * Pow256(4);
    assert Pow256(6) == 256 * Pow256(5);
    assert Pow256(7) == 256 * Pow256(6);
  }

  // Little-endian integers.

  function LeBytes(v: nat, n: nat): (b: seq<byte>)
    ensures |b| == n
  {
    if n == 0 then [] else [v % 256] + LeBytes(v / 256, n - 1)
  }

  function LeValue(b: seq<byte>): nat {
    if b == [] then 0 else b[0] + 256 * LeValue(b[1..])
  }

  lemma {:induction false} LeValueOfBytes(v: nat, n: nat)
    requires v < Pow256(n)
    ensures LeValue(LeBytes(v, n)) == v
  {
    if n > 0 {
      LeValueOfBytes(v / 256, n - 1);
      assert LeBytes(v, n)[1..] == LeBytes(v / 256, n - 1);
    }
  }

  lemma DivMod256(low: byte, high: nat)
    ensures (low + 256 * high) % 256 == low && (low + 256 * high) / 256 == high
  {
  }

  lemma {:induction false} LeBytesOfValue(b: seq<byte>)
    ensures LeValue(b) < Pow256(|b|)
    ensures LeBytes(LeValue(b), |b|) == b
  {
    if b != [] {
      LeBytesOfValue(b[1..]);
      DivMod256(b[0], LeValue(b[1..]));
      assert b == [b[0]] + b[1..];
    }
  }

  // Big-endian integers.

  function BeBytes(v: nat, n: nat): (b: seq<byte>)
    ensures |b| == n
  {
    if n == 0 then [] else BeBytes(v / 256, n - 1) + [v % 256]
  }

  lemma BeInjective(v: nat, w: nat, n: nat)
    requires v < Pow256(n) && w < Pow256(n)
    requires BeBytes(v, n) == BeBytes(w, n)
    ensures v == w
  {
    BeValueOfBytes(v, n);
    BeValueOfBytes(w, n);
  }

  lemma {:induction false} LeInjective(v: nat, w: nat, n: nat)
    requires v < Pow256(n) && w < Pow256(n)
    requires LeBytes(v, n) == LeBytes(w, n)
    ensures v == w
  {
    LeValueOfBytes(v, n);
    LeValueOfBytes(w, n);
  }

  /** Equal concatenations whose heads have equal length split at the same place. */
  lemma Split<T>(a: seq<T>, x: seq<T>, b: seq<T>, y: seq<T>)
    requires |a| == |b| && a + x == b + y
    ensures a == b && x == y
  {
    assert a == (a + x)[..|a|] && b == (b + y)[..|a|];
    assert x == (a + x)[|a|..] && y == (b + y)[|a|..];
  }

  /** Two distinct strings with one hash. */
  predicate Collision(hash: seq<byte> -> Bytes32, x: seq<byte>, y: seq<byte>) {
    x != y && hash(x) == hash(y)
  }

  function Ascii(s: string): (b: seq<byte>)
    requires forall i | 0 <= i < |s| :: s[i] <= '~'
    ensures |b| == |s|
  {
    seq(|s|, i requires 0 <= i < |s| => s[i] as int)
  }

  lemma AsciiTable()
    ensures Ascii("-:_") == [45, 58, 95] && Ascii("019AZaz") == [48, 49, 57, 65, 90, 97, 122]
  {
  }

  // Hexadecimal text.

  function HexDigit(n: nat): char
    requires n < 16
  {
    if n < 10 then ('0' as int + n) as char else ('a' as int + n - 10) as char
  }

  function DigitValue(c: char): (r: Option<nat>)
    ensures r.Some? ==> r.value < 16
  {
    if '0' <= c <= '9' then Some(c as int - '0' as int)
    else if 'a' <= c <= 'f' then Some(c as int - 'a' as int + 10)
    else if 'A' <= c <= 'F' then Some(c as int - 'A' as int + 10)
    else None
  }

  function HexEncode(b: seq<byte>): (s: string)
    ensures |s| == 2 * |b|
  {
    if b == [] then "" else [HexDigit(b[0] / 16), HexDigit(b[0] % 16)] + HexEncode(b[1..])
  }

  /** Both letter cases are accepted; an odd length or any other character is not. */
  function HexDecode(s: string): (r: Option<seq<byte>>)
    ensures r.Some? ==> 2 * |r.value| == |s|
  {
    if s == "" then Some([])
    else if |s| == 1 then None
    else
      match (DigitValue(s[0]), DigitValue(s[1]), HexDecode(s[2..]))
      case (Some(h), Some(l), Some(rest)) => Some([16 * h + l] + rest)
      case _ => None
  }

  lemma DigitRoundTrip(n: nat)
    requires n < 16
    ensures DigitValue(HexDigit(n)) == Some(n)
  {
  }

  lemma {:induction false} HexDecodesEncoded(b: seq<byte>)
    ensures HexDecode(HexEncode(b)) == Some(b)
  {
    if b != [] {
      var s, h, l := HexEncode(b), b[0] / 16, b[0] % 16;
      HexDecodesEncoded(b[1..]);
      DigitRoundTrip(h);
      DigitRoundTrip(l);
      assert s[2..] == HexEncode(b[1..]);
      assert HexDecode(s) == Some([16 * h + l] + b[1..]);
      assert b == [b[0]] + b[1..];
    }
  }

  lemma HexInjective(a: seq<byte>, b: seq<byte>)
    requires HexEncode(a) == HexEncode(b)
    ensures a == b
  {
    HexDecodesEncoded(a);
    HexDecodesEncoded(b);
  }

  // Integers as their bytes spell them out.

  function U16At(b: seq<byte>, i: nat): nat
    requires i + 2 <= |b|
  {
    b[i] as int + 256 * (b[i + 1] as int)
  }

  function U32At(b: seq<byte>, i: nat): nat
    requires i + 4 <= |b|
  {
    b[i] as int + 256 * (b[i + 1] as int) + 65_536 * (b[i + 2] as int) + 16_777_216 * (b[i + 3] as int)
  }

  function U64At(b: seq<byte>, i: nat): nat
    requires i + 8 <= |b|
  {
    U32At(b, i) + 4_294_967_296 * U32At(b, i + 4)
  }

  /** The same, most significant byte first. */
  function BigU32At(b: seq<byte>, i: nat): nat
    requires i + 4 <= |b|
  {
    16_777_216 * (b[i] as int) + 65_536 * (b[i + 1] as int) + 256 * (b[i + 2] as int) + b[i + 3] as int
  }

  function BigU64At(b: seq<byte>, i: nat): nat
    requires i + 8 <= |b|
  {
    4_294_967_296 * BigU32At(b, i) + BigU32At(b, i + 4)
  }

  lemma LeTwo(v: nat)
    requires v < 0x1_0000
    ensures U16At(LeBytes(v, 2), 0) == v
  {
    assert LeBytes(v, 2) == [v % 256] + ([v / 256 % 256] + LeBytes(v / 256 / 256, 0));
  }

  lemma FourBytes(b: seq<byte>)
    requires |b| >= 4
    ensures LeValue(b) == U32At(b, 0) + 4_294_967_296 * LeValue(b[4..])
  {
    assert b[1..][1..] == b[2..] && b[2..][1..] == b[3..] && b[3..][1..] == b[4..];
    assert LeValue(b) == b[0] + 256 * LeValue(b[1..]) && LeValue(b[1..]) == b[1] + 256 * LeValue(b[2..]);
    assert LeValue(b[2..]) == b[2] + 256 * LeValue(b[3..]) && LeValue(b[3..]) == b[3] + 256 * LeValue(b[4..]);
  }

  lemma LeFour(v: nat)
    requires v < 0x1_0000_0000
    ensures U32At(LeBytes(v, 4), 0) == v
  {
    PowersOf256();
    LeValueOfBytes(v, 4);
    FourBytes(LeBytes(v, 4));
    assert LeBytes(v, 4)[4..] == [];
  }

  lemma LeEight(v: nat)
    requires v < 0x1_0000_0000_0000_0000
    ensures U64At(LeBytes(v, 8), 0) == v
  {
    PowersOf256();
    var b := LeBytes(v, 8);
    LeValueOfBytes(v, 8);
    FourBytes(b);
    FourBytes(b[4..]);
    assert b[4..][4..] == [];
  }

  function BeValue(b: seq<byte>): nat {
    if b == [] then 0 else 256 * BeValue(b[..|b| - 1]) + b[|b| - 1] as int
  }

  lemma {:induction false} BeValueOfBytes(v: nat, n: nat)
    requires v < Pow256(n)
    ensures BeValue(BeBytes(v, n)) == v
  {
    if n > 0 {
      BeValueOfBytes(v / 256, n - 1);
      assert BeBytes(v, n)[..n - 1] == BeBytes(v / 256, n - 1);
    }
  }

  lemma FourBigBytes(b: seq<byte>)
    requires |b| >= 4
    ensures BeValue(b) == 4_294_967_296 * BeValue(b[..|b| - 4]) + BigU32At(b, |b| - 4)
  {
    var n := |b|;
    assert b[..n - 1][..n - 2] == b[..n - 2] && b[..n - 2][..n - 3] == b[..n - 3] && b[..n - 3][..n - 4] == b[..n - 4];
    assert BeValue(b) == 256 * BeValue(b[..n - 1]) + b[n - 1] && BeValue(b[..n - 1]) == 256 * BeValue(b[..n - 2]) + b[n - 2];
    assert BeValue(b[..n - 2]) == 256 * BeValue(b[..n - 3]) + b[n - 3] && BeValue(b[..n - 3]) == 256 * BeValue(b[..n - 4]) + b[n - 4];
  }

  lemma BeFour(v: nat)
    requires v < 0x1_0000_0000
    ensures BigU32At(BeBytes(v, 4), 0) == v
  {
    PowersOf256();
    BeValueOfBytes(v, 4);
    FourBigBytes(BeBytes(v, 4));
    assert BeBytes(v, 4)[..0] == [];
  }

  lemma BeEight(v: nat)
    requires v < 0x1_0000_0000_0000_0000
    ensures BigU64At(BeBytes(v, 8), 0) == v
  {
    PowersOf256();
    var b := BeBytes(v, 8);
    BeValueOfBytes(v, 8);
    FourBigBytes(b);
    FourBigBytes(b[..4]);
    assert b[..4][..0] == [];
  }

  /** A digit is worth its place among the sixteen, in either case. */
  lemma DigitOf(c: char)
    ensures DigitValue(c).Some? ==> c == "0123456789abcdef"[DigitValue(c).value] || c == "0123456789ABCDEF"[DigitValue(c).value]
  {
  }

  /** Decoding reads two digits, the high one first, as one byte. */
  lemma {:induction false} HexDecodeDigits(s: string, i: nat)
    requires HexDecode(s).Some? && 2 * i + 1 < |s|
    ensures DigitValue(s[2 * i]).Some? && DigitValue(s[2 * i + 1]).Some?
    ensures HexDecode(s).value[i] == 16 * DigitValue(s[2 * i]).value + DigitValue(s[2 * i + 1]).value
  {
    if i > 0 {
      HexDecodeDigits(s[2..], i - 1);
    }
  }

  /** Each byte is two digits of lower-case hexadecimal, the high one first. */
  lemma {:induction false} HexDigitsOf(b: seq<byte>, i: nat)
    requires i < |b|
    ensures HexEncode(b)[2 * i] == "0123456789abcdef"[b[i] / 16] && HexEncode(b)[2 * i + 1] == "0123456789abcdef"[b[i] % 16]
  {
    if i > 0 {
      HexDigitsOf(b[1..], i - 1);
      assert HexEncode(b)[2..] == HexEncode(b[1..]);
    }
  }
}
