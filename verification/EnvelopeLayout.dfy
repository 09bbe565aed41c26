/** The XZKENV01 bytes themselves: where each field stands in a frame, the reference script's
    sample frame, and the reason given for each kind of malformed frame. */
module EnvelopeLayout {
  import opened Bytes
  import opened EnvelopeCodec
  import Utf8

  lemma Piece(b: seq<byte>, pre: seq<byte>, piece: seq<byte>, post: seq<byte>)
    requires b == pre + piece + post
    ensures |pre| + |piece| <= |b| && b[|pre|..|pre| + |piece|] == piece
  {
  }

  lemma ReadAt(b: seq<byte>, i: nat)
    ensures i + 2 <= |b| ==> U16At(b, i) == U16At(b[i..i + 2], 0)
    ensures i + 4 <= |b| ==> U32At(b, i) == U32At(b[i..i + 4], 0)
    ensures i + 8 <= |b| ==> U64At(b, i) == U64At(b[i..i + 8], 0)
  {
  }

  /** The text part `t` stands at `i`: one length byte, then the bytes. */
  predicate TextAt(b: seq<byte>, i: nat, t: seq<byte>) {
    i + 1 + |t| <= |b| && b[i] == |t| && b[i + 1..i + 1 + |t|] == t
  }

  /** The head's fields stand from `i` and end before `end`. */
  predicate HeadFieldsAt(b: seq<byte>, i: nat, version: nat, x: seq<byte>, y: seq<byte>, z: seq<byte>, statementVersion: nat, proofSystem: nat,
                         end: nat) {
    var j := i + 7 + |x| + |y| + |z|;
    && end == j + 6 <= |b|
    && U32At(b, i) == version
    && TextAt(b, i + 4, x) && TextAt(b, i + 5 + |x|, y) && TextAt(b, i + 6 + |x| + |y|, z)
    && U32At(b, j) == statementVersion && U16At(b, j + 4) == proofSystem
  }

  predicate HeadAt(b: seq<byte>, i: nat, h: Head, end: nat)
    requires |h.parts| == 3
  {
    HeadFieldsAt(b, i, h.version, h.parts[0], h.parts[1], h.parts[2], h.statementVersion, h.proofSystem, end)
  }

  predicate CoreAt(b: seq<byte>, i: nat, c: Core) {
    && i + 136 <= |b|
    && b[i..i + 32] == c.verifier && b[i + 32..i + 64] == c.params && U64At(b, i + 64) == c.timestamp
    && b[i + 72..i + 104] == c.nonce && b[i + 104..i + 136] == c.inputs
  }

  /** A four-byte length, then the bytes. */
  predicate BlobAt(b: seq<byte>, i: nat, x: seq<byte>) {
    i + 4 + |x| <= |b| && U32At(b, i) == |x| && b[i + 4..i + 4 + |x|] == x
  }

  predicate AuthAt(b: seq<byte>, i: nat, a: Auth) {
    i + 34 <= |b| && U16At(b, i) == a.suite && b[i + 2..i + 34] == a.key && BlobAt(b, i + 34, a.sig)
  }

  /** The records stand one after another from `i` to the end of the frame. */
  predicate AuthsAt(b: seq<byte>, i: nat, auths: seq<Auth>)
    decreases |auths|
  {
    if auths == [] then i == |b|
    else AuthAt(b, i, auths[0]) && AuthsAt(b, i + 38 + |auths[0].sig|, auths[1..])
  }

  lemma BlobLayout(b: seq<byte>, pre: seq<byte>, x: seq<byte>, post: seq<byte>)
    requires |x| < 0x1_0000_0000 && b == pre + EncodeBlob(x) + post
    ensures BlobAt(b, |pre|, x)
  {
    LeFour(|x|);
    assert b == pre + LeBytes(|x|, 4) + (x + post);
    Piece(b, pre, LeBytes(|x|, 4), x + post);
    assert b == (pre + LeBytes(|x|, 4)) + x + post;
    Piece(b, pre + LeBytes(|x|, 4), x, post);
    ReadAt(b, |pre|);
  }

  lemma TextLayout(b: seq<byte>, pre: seq<byte>, t: seq<byte>, post: seq<byte>)
    requires |t| <= 64 && b == pre + EncodeText(t) + post
    ensures TextAt(b, |pre|, t) && |EncodeText(t)| == 1 + |t|
  {
    assert LeBytes(|t|, 1) == [|t| % 256] + LeBytes(|t| / 256, 0);
    assert b == pre + [|t|] + (t + post);
    assert b == (pre + [|t|]) + t + post;
    Piece(b, pre + [|t|], t, post);
  }

  lemma IntsLayout(b: seq<byte>, pre: seq<byte>, v: nat, n: nat, post: seq<byte>)
    requires b == pre + LeBytes(v, n) + post && v < Pow256(n)
    ensures n == 2 ==> U16At(b, |pre|) == v
    ensures n == 4 ==> U32At(b, |pre|) == v
    ensures n == 8 ==> U64At(b, |pre|) == v
  {
    PowersOf256();
    Piece(b, pre, LeBytes(v, n), post);
    ReadAt(b, |pre|);
    if n == 2 {
      LeTwo(v);
    }
    if n == 4 {
      LeFour(v);
    }
    if n == 8 {
      LeEight(v);
    }
  }

  lemma TextsJoin(h: Head)
    requires |h.parts| == 3
    ensures EncodeAll(EncodeText, h.parts) == EncodeText(h.parts[0]) + EncodeText(h.parts[1]) + EncodeText(h.parts[2])
  {
    var p := h.parts;
    assert p[1..][1..] == p[2..] && |p[2..]| == 1 && p[1..][0] == p[1] && p[2..][0] == p[2];
    assert EncodeAll(EncodeText, p[2..]) == EncodeText(p[2]) + [];
    assert EncodeAll(EncodeText, p[1..]) == EncodeText(p[1]) + EncodeAll(EncodeText, p[2..]);
  }

  lemma ThreePieces(b: seq<byte>, pre: seq<byte>, x: seq<byte>, y: seq<byte>, z: seq<byte>, post: seq<byte>)
    requires b == pre + (x + y + z) + post
    ensures b == pre + x + (y + z + post) && b == pre + x + y + (z + post) && b == pre + x + y + z + post
  {
  }

  lemma TextsLayout(b: seq<byte>, pre: seq<byte>, x: seq<byte>, y: seq<byte>, z: seq<byte>, post: seq<byte>)
    requires |x| <= 64 && |y| <= 64 && |z| <= 64 && b == pre + (EncodeText(x) + EncodeText(y) + EncodeText(z)) + post
    ensures TextAt(b, |pre|, x) && TextAt(b, |pre| + 1 + |x|, y) && TextAt(b, |pre| + 2 + |x| + |y|, z)
    ensures |EncodeText(x) + EncodeText(y) + EncodeText(z)| == 3 + |x| + |y| + |z|
  {
    ThreePieces(b, pre, EncodeText(x), EncodeText(y), EncodeText(z), post);
    TextLayout(b, pre, x, EncodeText(y) + EncodeText(z) + post);
    TextLayout(b, pre + EncodeText(x), y, EncodeText(z) + post);
    TextLayout(b, pre + EncodeText(x) + EncodeText(y), z, post);
  }

  lemma HeadFields(b: seq<byte>, pre: seq<byte>, v: seq<byte>, x: seq<byte>, y: seq<byte>, z: seq<byte>, s: seq<byte>, p: seq<byte>,
                   post: seq<byte>)
    requires |v| == 4 && |s| == 4 && |p| == 2 && |x| <= 64 && |y| <= 64 && |z| <= 64
    requires b == pre + (v + (EncodeText(x) + EncodeText(y) + EncodeText(z)) + s + p) + post
    ensures var i, j := |pre|, |pre| + 7 + |x| + |y| + |z|;
            && j + 6 <= |b| && b[i..i + 4] == v && b[j..j + 4] == s && b[j + 4..j + 6] == p
            && TextAt(b, i + 4, x) && TextAt(b, i + 5 + |x|, y) && TextAt(b, i + 6 + |x| + |y|, z)
    ensures |v + (EncodeText(x) + EncodeText(y) + EncodeText(z)) + s + p| == 13 + |x| + |y| + |z|
  {
    var t := EncodeText(x) + EncodeText(y) + EncodeText(z);
    HeadPieces(b, pre, v, t, s, p, post);
    TextsLayout(b, pre + v, x, y, z, s + p + post);
    Piece(b, pre, v, t + s + p + post);
    Piece(b, pre + v + t, s, p + post);
    Piece(b, pre + v + t + s, p, post);
  }

  lemma HeadJoin(h: Head)
    requires |h.parts| == 3
    ensures EncodeHead(h)
            == LeBytes(h.version, 4) + (EncodeText(h.parts[0]) + EncodeText(h.parts[1]) + EncodeText(h.parts[2]))
               + LeBytes(h.statementVersion, 4) + LeBytes(h.proofSystem, 2)
  {
    TextsJoin(h);
  }

  lemma HeadNumbers(b: seq<byte>, pre: seq<byte>, v: seq<byte>, x: seq<byte>, y: seq<byte>, z: seq<byte>, s: seq<byte>, p: seq<byte>,
                    post: seq<byte>)
    requires |v| == 4 && |s| == 4 && |p| == 2 && |x| <= 64 && |y| <= 64 && |z| <= 64
    requires b == pre + (v + (EncodeText(x) + EncodeText(y) + EncodeText(z)) + s + p) + post
    ensures HeadFieldsAt(b, |pre|, U32At(v, 0), x, y, z, U32At(s, 0), U16At(p, 0), |pre| + 13 + |x| + |y| + |z|)
    ensures |v + (EncodeText(x) + EncodeText(y) + EncodeText(z)) + s + p| == 13 + |x| + |y| + |z|
  {
    HeadFields(b, pre, v, x, y, z, s, p, post);
    var j := |pre| + 7 + |x| + |y| + |z|;
    ReadAt(b, |pre|);
    ReadAt(b, j);
    ReadAt(b, j + 4);
  }

  lemma TextsShort(h: Head)
    requires WellFormedHead(h)
    ensures |h.parts[0]| <= 64 && |h.parts[1]| <= 64 && |h.parts[2]| <= 64
  {
    assert WellFormedText(h.parts[0]) && WellFormedText(h.parts[1]) && WellFormedText(h.parts[2]);
  }

  lemma HeadLayout(b: seq<byte>, pre: seq<byte>, h: Head, post: seq<byte>)
    requires WellFormedHead(h) && b == pre + EncodeHead(h) + post
    ensures HeadAt(b, |pre|, h, |pre| + |EncodeHead(h)|)
  {
    TextsShort(h);
    HeadJoin(h);
    LeFour(h.version);
    LeFour(h.statementVersion);
    LeTwo(h.proofSystem);
    HeadNumbers(b, pre, LeBytes(h.version, 4), h.parts[0], h.parts[1], h.parts[2], LeBytes(h.statementVersion, 4), LeBytes(h.proofSystem, 2), post);
  }

  lemma HeadPieces(b: seq<byte>, pre: seq<byte>, v: seq<byte>, t: seq<byte>, s: seq<byte>, y: seq<byte>, post: seq<byte>)
    requires b == pre + (v + t + s + y) + post
    ensures b == pre + v + (t + s + y + post)
    ensures b == pre + v + t + (s + y + post)
    ensures b == pre + v + t + s + (y + post)
    ensures b == pre + v + t + s + y + post
  {
  }

  lemma CoreLayout(b: seq<byte>, pre: seq<byte>, c: Core, post: seq<byte>)
    requires WellFormedCore(c) && b == pre + EncodeCore(c) + post
    ensures CoreAt(b, |pre|, c)
  {
    PowersOf256();
    var t := LeBytes(c.timestamp, 8);
    CorePieces(b, pre, c.verifier, c.params, t, c.nonce, c.inputs, post);
    Piece(b, pre, c.verifier, c.params + t + c.nonce + c.inputs + post);
    Piece(b, pre + c.verifier, c.params, t + c.nonce + c.inputs + post);
    IntsLayout(b, pre + c.verifier + c.params, c.timestamp, 8, c.nonce + c.inputs + post);
    Piece(b, pre + c.verifier + c.params + t, c.nonce, c.inputs + post);
    Piece(b, pre + c.verifier + c.params + t + c.nonce, c.inputs, post);
  }

  lemma CorePieces(b: seq<byte>, pre: seq<byte>, v: seq<byte>, p: seq<byte>, t: seq<byte>, n: seq<byte>, i: seq<byte>, post: seq<byte>)
    requires b == pre + (v + p + t + n + i) + post
    ensures b == pre + v + (p + t + n + i + post)
    ensures b == pre + v + p + (t + n + i + post)
    ensures b == pre + v + p + t + (n + i + post)
    ensures b == pre + v + p + t + n + (i + post)
    ensures b == pre + v + p + t + n + i + post
  {
  }

  lemma AuthLayout(b: seq<byte>, pre: seq<byte>, a: Auth, post: seq<byte>)
    requires 0 < a.suite < 0x1_0000 && |a.key| == 32 && |a.sig| < 0x1_0000_0000 && b == pre + EncodeAuth(a) + post
    ensures AuthAt(b, |pre|, a) && |EncodeAuth(a)| == 38 + |a.sig|
  {
    PowersOf256();
    var s := LeBytes(a.suite, 2);
    assert b == pre + s + (a.key + EncodeBlob(a.sig) + post);
    IntsLayout(b, pre, a.suite, 2, a.key + EncodeBlob(a.sig) + post);
    assert b == pre + s + a.key + (EncodeBlob(a.sig) + post);
    Piece(b, pre + s, a.key, EncodeBlob(a.sig) + post);
    assert b == pre + s + a.key + EncodeBlob(a.sig) + post;
    BlobLayout(b, pre + s + a.key, a.sig, post);
  }

  lemma {:induction false} AuthsLayout(b: seq<byte>, pre: seq<byte>, auths: seq<Auth>, l: Policy)
    requires (forall a | a in auths :: WellFormedAuth(a, l)) && b == pre + EncodeAll(EncodeAuth, auths)
    ensures AuthsAt(b, |pre|, auths)
    decreases |auths|
  {
    if auths != [] {
      var a, rest := auths[0], EncodeAll(EncodeAuth, auths[1..]);
      assert WellFormedAuth(a, l) && b == pre + EncodeAuth(a) + rest;
      AuthLayout(b, pre, a, rest);
      AuthsLayout(b, pre + EncodeAuth(a), auths[1..], l);
    }
  }

  /** From `i`: proof, extension digest, the number of records, and the records. */
  predicate TailAt(b: seq<byte>, i: nat, e: Envelope) {
    var j := i + 4 + |e.proof|;
    && BlobAt(b, i, e.proof)
    && j + 34 <= |b| && b[j..j + 32] == e.ext && U16At(b, j + 32) == |e.auth| && AuthsAt(b, j + 34, e.auth)
  }

  function Tail(e: Envelope): seq<byte> {
    EncodeBlob(e.proof) + e.ext + LeBytes(|e.auth|, 2) + EncodeAll(EncodeAuth, e.auth)
  }

  lemma TailPieces(b: seq<byte>, pre: seq<byte>, p: seq<byte>, x: seq<byte>, n: seq<byte>, a: seq<byte>)
    requires b == pre + (p + x + n + a)
    ensures b == pre + p + (x + n + a) && b == pre + p + x + (n + a) && b == pre + p + x + n + a
  {
  }

  lemma TailLayout(b: seq<byte>, pre: seq<byte>, e: Envelope, l: Policy)
    requires WellFormed(e, l) && b == pre + Tail(e)
    ensures TailAt(b, |pre|, e)
  {
    PowersOf256();
    var p, n, a := EncodeBlob(e.proof), LeBytes(|e.auth|, 2), EncodeAll(EncodeAuth, e.auth);
    TailPieces(b, pre, p, e.ext, n, a);
    BlobLayout(b, pre, e.proof, e.ext + n + a);
    Piece(b, pre + p, e.ext, n + a);
    IntsLayout(b, pre + p + e.ext, |e.auth|, 2, a);
    AuthsLayout(b, pre + p + e.ext + n, e.auth, l);
  }

  /** Every field of a frame, at its offset: integers little-endian, texts and blobs after their
      lengths, 32-byte fields as they are. */
  lemma FrameLayout(e: Envelope, l: Policy)
    requires WellFormed(e, l)
    ensures var b := Encode(e);
            var i := 8 + |EncodeHead(e.head)|;
            && |b| >= 8 && b[..8] == Ascii("XZKENV01")
            && HeadAt(b, 8, e.head, i) && CoreAt(b, i, e.core) && TailAt(b, i + 136, e)
  {
    var b, h, c := Encode(e), EncodeHead(e.head), EncodeCore(e.core);
    FramePieces(MAGIC, h, c, EncodeBlob(e.proof), e.ext, LeBytes(|e.auth|, 2), EncodeAll(EncodeAuth, e.auth));
    HeadLayout(b, MAGIC, e.head, c + Tail(e));
    CoreLayout(b, MAGIC + h, e.core, Tail(e));
    TailLayout(b, MAGIC + h + c, e, l);
    MagicText(b);
  }

  lemma MagicText(b: seq<byte>)
    requires MAGIC <= b
    ensures |b| >= 8 && b[..8] == Ascii("XZKENV01")
  {
    assert MAGIC == Ascii("XZKENV01");
  }

  lemma FramePieces(m: seq<byte>, h: seq<byte>, c: seq<byte>, p: seq<byte>, x: seq<byte>, n: seq<byte>, a: seq<byte>)
    ensures m + h + c + p + x + n + a == m + h + (c + (p + x + n + a)) == m + h + c + (p + x + n + a)
    ensures m <= m + h + c + p + x + n + a
  {
  }

  // The reference script's sample.

  function Fill(n: nat, b: byte): seq<byte> {
    seq(n, _ => b)
  }

  const SAMPLE := Envelope(
    Head(3, [XENIA[1..], ACCESS[1..], RANGE[1..]], 3, 1),
    Core(Fill(32, 0x11), Fill(32, 0x22), 1_800_000_000, Fill(32, 0x33), Fill(32, 0x44)),
    Fill(64, 0x55), Fill(32, 0x88), [Auth(2, Fill(32, 0x66), Fill(96, 0x77))])

  lemma SampleInts()
    ensures LeBytes(3, 4) == [3, 0, 0, 0] && LeBytes(64, 4) == [64, 0, 0, 0] && LeBytes(96, 4) == [96, 0, 0, 0]
    ensures LeBytes(1, 2) == [1, 0] && LeBytes(2, 2) == [2, 0]
    ensures LeBytes(5, 1) == [5] && LeBytes(6, 1) == [6] && LeBytes(15, 1) == [15]
    ensures LeBytes(1_800_000_000, 8) == [0x00, 0xD2, 0x49, 0x6B, 0, 0, 0, 0]
  {
  }

  lemma {:induction false} AsciiIsText(b: seq<byte>)
    requires forall i | 0 <= i < |b| :: b[i] < 128
    ensures Utf8.Valid(b)
  {
    if b != [] {
      AsciiIsText(b[1..]);
    }
  }

  lemma SampleText(t: seq<byte>, n: nat, encoded: seq<byte>)
    requires |t| == n <= 64 && encoded == [n] + t && forall i | 0 <= i < |t| :: t[i] < 128
    ensures WellFormedText(t) && EncodeText(t) == encoded
  {
    AsciiIsText(t);
    assert LeBytes(n, 1) == [n % 256] + LeBytes(n / 256, 0);
  }

  const XENIA: seq<byte> := [5, 0x58, 0x45, 0x4E, 0x49, 0x41]
  const ACCESS: seq<byte> := [6, 0x41, 0x63, 0x63, 0x65, 0x73, 0x73]
  const RANGE: seq<byte> := [15, 0x52, 0x61, 0x6E, 0x67, 0x65, 0x43, 0x72, 0x65, 0x64, 0x65, 0x6E, 0x74, 0x69, 0x61, 0x6C]

  lemma SampleTexts()
    ensures WellFormedText(XENIA[1..]) && EncodeText(XENIA[1..]) == XENIA
    ensures WellFormedText(ACCESS[1..]) && EncodeText(ACCESS[1..]) == ACCESS
    ensures WellFormedText(RANGE[1..]) && EncodeText(RANGE[1..]) == RANGE
  {
    SampleText(XENIA[1..], 5, XENIA);
    SampleText(ACCESS[1..], 6, ACCESS);
    SampleText(RANGE[1..], 15, RANGE);
  }

  lemma SampleHead()
    ensures WellFormedHead(SAMPLE.head)
    ensures EncodeHead(SAMPLE.head) == [3, 0, 0, 0] + (XENIA + ACCESS + RANGE) + [3, 0, 0, 0] + [1, 0]
  {
    SampleInts();
    SampleTexts();
    TextsJoin(SAMPLE.head);
  }

  lemma SampleAuth()
    ensures EncodeAll(EncodeAuth, SAMPLE.auth) == [2, 0] + Fill(32, 0x66) + ([96, 0, 0, 0] + Fill(96, 0x77))
  {
    SampleInts();
    assert EncodeAll(EncodeAuth, SAMPLE.auth) == EncodeAuth(SAMPLE.auth[0]) + EncodeAll(EncodeAuth, SAMPLE.auth[1..]);
  }

  /** The script's sample envelope is this frame of 419 bytes. */
  lemma SampleFrame()
    ensures Encode(SAMPLE)
            == [0x58, 0x5A, 0x4B, 0x45, 0x4E, 0x56, 0x30, 0x31]
               + ([3, 0, 0, 0] + (XENIA + ACCESS + RANGE) + [3, 0, 0, 0] + [1, 0])
               + (Fill(32, 0x11) + Fill(32, 0x22) + [0x00, 0xD2, 0x49, 0x6B, 0, 0, 0, 0] + Fill(32, 0x33) + Fill(32, 0x44))
               + ([64, 0, 0, 0] + Fill(64, 0x55)) + Fill(32, 0x88)
               + [1, 0] + ([2, 0] + Fill(32, 0x66) + ([96, 0, 0, 0] + Fill(96, 0x77)))
    ensures |Encode(SAMPLE)| == 419
  {
    SampleInts();
    SampleHead();
    SampleAuth();
  }
}
