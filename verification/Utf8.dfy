/** UTF-8: the well-formed octet sequences of section 4 of RFC 3629, and the
    encoder of section 3. `char` is a Unicode scalar value. */
module Utf8 {
  import opened Bytes

  function EncodeScalar(c: char): (b: seq<byte>)
    ensures 1 <= |b| <= 4
  {
    var n := c as int;
    if n < 0x80 then [n]
    else if n < 0x800 then [0xC0 + n / 64, 0x80 + n % 64]
    else if n < 0x1_0000 then [0xE0 + n / 4096, 0x80 + n / 64 % 64, 0x80 + n % 64]
    else [0xF0 + n / 262144, 0x80 + n / 4096 % 64, 0x80 + n / 64 % 64, 0x80 + n % 64]
  }

  function Encode(s: string): (b: seq<byte>) {
    if s == "" then [] else EncodeScalar(s[0]) + Encode(s[1..])
  }

  predicate Tail(b: byte) {
    0x80 <= b <= 0xBF
  }

  /** Length of the first character by the productions UTF8-1 to UTF8-4, or 0. */
  function CharLength(b: seq<byte>): (n: nat)
    ensures n <= |b|
  {
    if |b| >= 1 && b[0] <= 0x7F then 1
    else if |b| >= 2 && 0xC2 <= b[0] <= 0xDF && Tail(b[1]) then 2
    else if |b| >= 3 && Tail(b[2])
            && (|| (b[0] == 0xE0 && 0xA0 <= b[1] <= 0xBF)
                || (0xE1 <= b[0] <= 0xEC && Tail(b[1]))
                || (b[0] == 0xED && 0x80 <= b[1] <= 0x9F)
                || (0xEE <= b[0] <= 0xEF && Tail(b[1]))) then 3
    else if |b| >= 4 && Tail(b[2]) && Tail(b[3])
            && (|| (b[0] == 0xF0 && 0x90 <= b[1] <= 0xBF)
                || (0xF1 <= b[0] <= 0xF3 && Tail(b[1]))
                || (b[0] == 0xF4 && 0x80 <= b[1] <= 0x8F)) then 4
    else 0
  }

  predicate Valid(b: seq<byte>) {
    b == [] || (CharLength(b) > 0 && Valid(b[CharLength(b)..]))
  }

  function Low(b: byte): int {
    (b as int) - 0x80
  }

  /** The number carried by the first character's bits. */
  function CodePoint(b: seq<byte>): (n: int)
    requires CharLength(b) > 0
    ensures 0 <= n < 0xD800 || 0xE000 <= n < 0x11_0000
  {
    match CharLength(b)
    case 1 => b[0]
    case 2 => (Low(b[0]) - 0x40) * 64 + Low(b[1])
    case 3 => (Low(b[0]) - 0x60) * 4096 + Low(b[1]) * 64 + Low(b[2])
    case _ => (Low(b[0]) - 0x70) * 262144 + Low(b[1]) * 4096 + Low(b[2]) * 64 + Low(b[3])
  }

  function DecodeScalar(b: seq<byte>): (c: char)
    requires CharLength(b) > 0
  {
    CodePoint(b) as char
  }

  lemma DigitsOf(a: nat, x: nat, y: nat, z: nat)
    requires x < 64 && y < 64 && z < 64
    ensures (a * 64 + x) / 64 == a && (a * 64 + x) % 64 == x
    ensures var n := a * 4096 + x * 64 + y; n / 4096 == a && n / 64 % 64 == x && n % 64 == y
    ensures var n := a * 262144 + x * 4096 + y * 64 + z;
            n / 262144 == a && n / 4096 % 64 == x && n / 64 % 64 == y && n % 64 == z
  {
    var n := a * 262144 + x * 4096 + y * 64 + z;
    assert n / 64 == a * 4096 + x * 64 + y && n / 4096 == a * 64 + x;
  }

  lemma EncodesDecodedFour(b: seq<byte>)
    requires CharLength(b) == 4
    ensures EncodeScalar(DecodeScalar(b)) == b[..4]
  {
    DigitsOf(Low(b[0]) - 0x70, Low(b[1]), Low(b[2]), Low(b[3]));
    assert CodePoint(b) >= 0x1_0000;
  }

  lemma EncodesDecodedThree(b: seq<byte>)
    requires CharLength(b) == 3
    ensures EncodeScalar(DecodeScalar(b)) == b[..3]
  {
    DigitsOf(Low(b[0]) - 0x60, Low(b[1]), Low(b[2]), 0);
    assert 0x800 <= CodePoint(b) < 0x1_0000;
  }

  lemma EncodesDecodedScalar(b: seq<byte>)
    requires CharLength(b) > 0
    ensures EncodeScalar(DecodeScalar(b)) == b[..CharLength(b)]
  {
    match CharLength(b)
    case 1 =>
    case 2 => DigitsOf(Low(b[0]) - 0x40, Low(b[1]), 0, 0);
    case 3 => EncodesDecodedThree(b);
    case _ => EncodesDecodedFour(b);
  }

  function Decode(b: seq<byte>): (s: string)
    requires Valid(b)
  {
    if b == [] then "" else [DecodeScalar(b)] + Decode(b[CharLength(b)..])
  }

  lemma Base64Digits(n: nat)
    ensures n == n / 64 * 64 + n % 64
    ensures n == n / 4096 * 4096 + n / 64 % 64 * 64 + n % 64
    ensures n == n / 262144 * 262144 + n / 4096 % 64 * 4096 + n / 64 % 64 * 64 + n % 64
  {
    assert n / 4096 == n / 64 / 64 && n / 262144 == n / 4096 / 64;
  }

  lemma EncodedLength(c: char, b: seq<byte>)
    requires EncodeScalar(c) <= b
    ensures CharLength(b) == |EncodeScalar(c)|
  {
  }

  lemma ScalarIsOneChar(c: char, rest: seq<byte>)
    ensures CharLength(EncodeScalar(c) + rest) == |EncodeScalar(c)|
    ensures DecodeScalar(EncodeScalar(c) + rest) == c
  {
    var b := EncodeScalar(c) + rest;
    EncodedLength(c, b);
    Base64Digits(c as int);
    assert CodePoint(b) == c as int;
  }

  lemma {:induction false} DecodesEncoded(s: string)
    ensures Valid(Encode(s)) && Decode(Encode(s)) == s
  {
    if s != "" {
      DecodesEncoded(s[1..]);
      ScalarIsOneChar(s[0], Encode(s[1..]));
      assert Encode(s)[|EncodeScalar(s[0])|..] == Encode(s[1..]);
      assert s == [s[0]] + s[1..];
    }
  }

  lemma EncodeCons(c: char, s: string, b: seq<byte>, n: nat)
    requires n <= |b| && EncodeScalar(c) == b[..n] && Encode(s) == b[n..]
    ensures Encode([c] + s) == b
  {
    assert ([c] + s)[1..] == s;
    assert b == b[..n] + b[n..];
  }

  lemma {:induction false} EncodesDecoded(b: seq<byte>)
    requires Valid(b)
    ensures Encode(Decode(b)) == b
  {
    if b != [] {
      var rest := b[CharLength(b)..];
      EncodesDecoded(rest);
      EncodesDecodedScalar(b);
      EncodeCons(DecodeScalar(b), Decode(rest), b, CharLength(b));
    }
  }

  /** The grammar accepts exactly the encodings of text. */
  lemma ValidIffEncoding(b: seq<byte>)
    ensures Valid(b) <==> exists s: string :: Encode(s) == b
  {
    if Valid(b) {
      EncodesDecoded(b);
    }
    if s: string :| Encode(s) == b {
      DecodesEncoded(s);
    }
  }

  lemma EncodeInjective(s: string, t: string)
    requires Encode(s) == Encode(t)
    ensures s == t
  {
    DecodesEncoded(s);
    DecodesEncoded(t);
  }

  /** Examples from section 7 of RFC 3629: one to four bytes a character. */
  lemma Examples()
    ensures Encode("A\U{2262}\U{0391}.") == [0x41, 0xE2, 0x89, 0xA2, 0xCE, 0x91, 0x2E]
    ensures Encode("\U{233B4}") == [0xF0, 0xA3, 0x8E, 0xB4]
  {
    var s := "A\U{2262}\U{0391}.";
    assert s[1..][1..] == s[2..] && s[2..][1..] == s[3..] && s[3..][1..] == "";
    assert Encode(s[3..]) == EncodeScalar('.') + Encode("");
    assert Encode(s[2..]) == EncodeScalar('\U{0391}') + Encode(s[3..]);
    assert Encode(s[1..]) == EncodeScalar('\U{2262}') + Encode(s[2..]);
    assert "\U{233B4}"[1..] == "";
  }
}
