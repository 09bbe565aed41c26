/** Which frames are refused and as what: the first field that is wrong names the reason. */
module EnvelopeRefusals {
  import opened Bytes
  import opened EnvelopeCodec
  import Utf8

  predicate FrameOk(b: seq<byte>, l: Policy, g: Guards) {
    g.frame ==> 0 < |b| <= l.maxFrame
  }

  /** An empty frame and one over the limit are refused before anything is read. */
  lemma FrameRefused(b: seq<byte>, l: Policy, g: Guards)
    ensures !FrameOk(b, l, g) ==> Decode(b, l, g) == Err(BadFrame)
  {
  }

  lemma MagicRefused(b: seq<byte>, l: Policy, g: Guards)
    requires FrameOk(b, l, g)
    ensures |b| < 8 ==> Decode(b, l, g) == Err(Truncated)
    ensures |b| >= 8 && b[..8] != [0x58, 0x5A, 0x4B, 0x45, 0x4E, 0x56, 0x30, 0x31] ==> Decode(b, l, g) == Err(BadMagic)
  {
  }

  // The parser reaches the field after a well-formed beginning.

  lemma AfterMagic(s: seq<byte>, l: Policy, g: Guards)
    requires FrameOk(MAGIC + s, l, g) && ParseHead(s).Err?
    ensures Decode(MAGIC + s, l, g) == Err(ParseHead(s).reject)
  {
    TakeIff(MAGIC + s, 8, MAGIC, s);
  }

  lemma AfterHead(h: Head, s: seq<byte>, l: Policy, g: Guards)
    requires WellFormedHead(h) && FrameOk(MAGIC + (EncodeHead(h) + s), l, g) && ParseCore(s).Err?
    ensures Decode(MAGIC + (EncodeHead(h) + s), l, g) == Err(ParseCore(s).reject)
  {
    TakeIff(MAGIC + (EncodeHead(h) + s), 8, MAGIC, EncodeHead(h) + s);
    HeadComplete(h, s);
  }

  lemma AfterCore(h: Head, c: Core, s: seq<byte>, l: Policy, g: Guards)
    requires WellFormedHead(h) && WellFormedCore(c) && FrameOk(MAGIC + (EncodeHead(h) + (EncodeCore(c) + s)), l, g)
    requires Blob(s, ProofLimit(l), g).Err?
    ensures Decode(MAGIC + (EncodeHead(h) + (EncodeCore(c) + s)), l, g) == Err(Blob(s, ProofLimit(l), g).reject)
  {
    TakeIff(MAGIC + (EncodeHead(h) + (EncodeCore(c) + s)), 8, MAGIC, EncodeHead(h) + (EncodeCore(c) + s));
    HeadComplete(h, EncodeCore(c) + s);
    CoreComplete(c, s);
  }

  /** What comes before the records. */
  function Front(e: Envelope, s: seq<byte>): seq<byte> {
    MAGIC + (EncodeHead(e.head) + (EncodeCore(e.core) + (EncodeBlob(e.proof) + (e.ext + s))))
  }

  predicate FrontOk(e: Envelope, l: Policy) {
    WellFormedHead(e.head) && WellFormedCore(e.core) && |e.proof| <= ProofLimit(l) && |e.ext| == 32
  }

  lemma AfterExtension(e: Envelope, s: seq<byte>, l: Policy, g: Guards)
    requires FrontOk(e, l) && FrameOk(Front(e, s), l, g) && AuthSection(s, l, g).Err?
    ensures Decode(Front(e, s), l, g) == Err(AuthSection(s, l, g).reject)
  {
    var s3 := EncodeBlob(e.proof) + (e.ext + s);
    TakeIff(Front(e, s), 8, MAGIC, EncodeHead(e.head) + (EncodeCore(e.core) + s3));
    HeadComplete(e.head, EncodeCore(e.core) + s3);
    CoreComplete(e.core, s3);
    BlobIff(s3, ProofLimit(l), g, e.proof, e.ext + s);
    TakeIff(e.ext + s, 32, e.ext, s);
  }

  lemma {:induction false} RepeatFails<T(!new)>(p: seq<byte> -> Parsed<T>, enc: T -> seq<byte>, wf: T -> bool,
                                               vs: seq<T>, bad: seq<byte>, n: nat, acc: seq<T>)
    requires Canonical(p, enc, wf) && (forall v | v in vs :: wf(v)) && |vs| < n && p(bad).Err?
    ensures Repeat(p, EncodeAll(enc, vs) + bad, n, acc) == Err(p(bad).reject)
    decreases |vs|
  {
    if vs == [] {
      assert EncodeAll(enc, vs) + bad == bad;
    } else {
      assert EncodeAll(enc, vs) + bad == enc(vs[0]) + (EncodeAll(enc, vs[1..]) + bad);
      RepeatFails(p, enc, wf, vs[1..], bad, n - 1, acc + [vs[0]]);
    }
  }

  // Texts.

  lemma BadText(n: byte, raw: seq<byte>, rest: seq<byte>)
    ensures n > 64 ==> Text([n] + rest) == Err(TextLimit)
    ensures |raw| == n <= 64 && !Utf8.Valid(raw) ==> Text([n] + (raw + rest)) == Err(NotUtf8)
  {
    PowersOf256();
    assert LeBytes(n, 1) == [n % 256] + LeBytes(n / 256, 0);
    UIntIff([n] + rest, 1, n, rest);
    UIntIff([n] + (raw + rest), 1, n, raw + rest);
    TakeIff(raw + rest, |raw|, raw, rest);
  }

  /** After the version and fewer than three good texts, a bad text. */
  lemma HeadWithBadText(version: nat, texts: seq<seq<byte>>, bad: seq<byte>)
    requires version < 0x1_0000_0000 && |texts| < 3 && (forall t | t in texts :: WellFormedText(t)) && Text(bad).Err?
    ensures ParseHead(LeBytes(version, 4) + (EncodeAll(EncodeText, texts) + bad)) == Err(Text(bad).reject)
  {
    PowersOf256();
    var s := EncodeAll(EncodeText, texts) + bad;
    UIntIff(LeBytes(version, 4) + s, 4, version, s);
    TextCanonical();
    RepeatFails(Text, EncodeText, WellFormedText, texts, bad, 3, []);
  }

  /** A text longer than 64 bytes, or not UTF-8, in any of the three places. */
  lemma TextRefused(version: nat, texts: seq<seq<byte>>, n: byte, raw: seq<byte>, rest: seq<byte>, l: Policy, g: Guards)
    requires version < 0x1_0000_0000 && |texts| < 3 && forall t | t in texts :: WellFormedText(t)
    ensures var b := MAGIC + (LeBytes(version, 4) + (EncodeAll(EncodeText, texts) + ([n] + rest)));
            n > 64 && FrameOk(b, l, g) ==> Decode(b, l, g) == Err(TextLimit)
    ensures var b := MAGIC + (LeBytes(version, 4) + (EncodeAll(EncodeText, texts) + ([n] + (raw + rest))));
            |raw| == n <= 64 && !Utf8.Valid(raw) && FrameOk(b, l, g) ==> Decode(b, l, g) == Err(NotUtf8)
  {
    BadText(n, raw, rest);
    var b := LeBytes(version, 4) + (EncodeAll(EncodeText, texts) + ([n] + rest));
    if n > 64 && FrameOk(MAGIC + b, l, g) {
      HeadWithBadText(version, texts, [n] + rest);
      AfterMagic(b, l, g);
    }
    var c := LeBytes(version, 4) + (EncodeAll(EncodeText, texts) + ([n] + (raw + rest)));
    if |raw| == n <= 64 && !Utf8.Valid(raw) && FrameOk(MAGIC + c, l, g) {
      HeadWithBadText(version, texts, [n] + (raw + rest));
      AfterMagic(c, l, g);
    }
  }

  // Reserved zeros.

  lemma ZeroInHead(h: Head, rest: seq<byte>)
    requires h.version < 0x1_0000_0000 && |h.parts| == 3 && forall t | t in h.parts :: WellFormedText(t)
    requires h.statementVersion < 0x1_0000_0000 && h.proofSystem < 0x1_0000 && (h.statementVersion == 0 || h.proofSystem == 0)
    ensures ParseHead(EncodeHead(h) + rest) == Err(Reserved)
  {
    PowersOf256();
    var s3 := LeBytes(h.proofSystem, 2) + rest;
    var s2 := LeBytes(h.statementVersion, 4) + s3;
    var s1 := EncodeAll(EncodeText, h.parts) + s2;
    assert EncodeHead(h) + rest == LeBytes(h.version, 4) + s1;
    UIntIff(EncodeHead(h) + rest, 4, h.version, s1);
    assert Repeat(Text, s1, 3, []) == Ok((h.parts, s2)) by {
      TextCanonical();
      RepeatComplete(Text, EncodeText, WellFormedText, [], h.parts, s2);
      assert [] + h.parts == h.parts;
    }
    UIntIff(s2, 4, h.statementVersion, s3);
    UIntIff(s3, 2, h.proofSystem, rest);
  }

  /** A statement version or proof system of zero. */
  lemma ReservedRefused(h: Head, rest: seq<byte>, l: Policy, g: Guards)
    requires h.version < 0x1_0000_0000 && |h.parts| == 3 && forall t | t in h.parts :: WellFormedText(t)
    requires h.statementVersion < 0x1_0000_0000 && h.proofSystem < 0x1_0000 && (h.statementVersion == 0 || h.proofSystem == 0)
    requires FrameOk(MAGIC + (EncodeHead(h) + rest), l, g)
    ensures Decode(MAGIC + (EncodeHead(h) + rest), l, g) == Err(Reserved)
  {
    ZeroInHead(h, rest);
    AfterMagic(EncodeHead(h) + rest, l, g);
  }

  // Declared lengths and counts.

  lemma BadBlob(n: nat, rest: seq<byte>, limit: nat, g: Guards)
    requires n < 0x1_0000_0000
    ensures n > limit ==> Blob(LeBytes(n, 4) + rest, limit, g) == Err(Limit)
    ensures n <= limit && n > |rest| ==> Blob(LeBytes(n, 4) + rest, limit, g) == Err(if g.blob then BeyondFrame else Truncated)
  {
    PowersOf256();
    UIntIff(LeBytes(n, 4) + rest, 4, n, rest);
  }

  /** A proof declared over its limit, or longer than what is left. */
  lemma ProofRefused(h: Head, c: Core, n: nat, rest: seq<byte>, l: Policy, g: Guards)
    requires WellFormedHead(h) && WellFormedCore(c) && n < 0x1_0000_0000
    requires FrameOk(MAGIC + (EncodeHead(h) + (EncodeCore(c) + (LeBytes(n, 4) + rest))), l, g)
    ensures var r := Decode(MAGIC + (EncodeHead(h) + (EncodeCore(c) + (LeBytes(n, 4) + rest))), l, g);
            && (n > ProofLimit(l) ==> r == Err(Limit))
            && (n <= ProofLimit(l) && n > |rest| ==> r == Err(if g.blob then BeyondFrame else Truncated))
  {
    BadBlob(n, rest, ProofLimit(l), g);
    if n > ProofLimit(l) || n > |rest| {
      AfterCore(h, c, LeBytes(n, 4) + rest, l, g);
    }
  }

  /** More records declared than allowed, or than could fit in what is left. */
  lemma CountRefused(e: Envelope, n: nat, rest: seq<byte>, l: Policy, g: Guards)
    requires FrontOk(e, l) && n < 0x1_0000 && FrameOk(Front(e, LeBytes(n, 2) + rest), l, g)
    ensures var r := Decode(Front(e, LeBytes(n, 2) + rest), l, g);
            && (n > AuthLimit(l) ==> r == Err(AuthCount))
            && (n <= AuthLimit(l) && g.auth && 38 * n > |rest| ==> r == Err(AuthMinFrame))
  {
    PowersOf256();
    UIntIff(LeBytes(n, 2) + rest, 2, n, rest);
    if n > AuthLimit(l) || (g.auth && 38 * n > |rest|) {
      AfterExtension(e, LeBytes(n, 2) + rest, l, g);
    }
  }

  lemma BadRecord(suite: nat, key: seq<byte>, n: nat, rest: seq<byte>, l: Policy, g: Guards)
    requires suite < 0x1_0000 && |key| == 32 && n < 0x1_0000_0000
    ensures var r := ParseAuth(LeBytes(suite, 2) + (key + (LeBytes(n, 4) + rest)), l, g);
            && (suite == 0 ==> r == Err(BadSuite))
            && (suite > 0 && n > SigLimit(l) ==> r == Err(Limit))
            && (suite > 0 && n <= SigLimit(l) && n > |rest| ==> r == Err(if g.blob then BeyondFrame else Truncated))
  {
    PowersOf256();
    var s2 := LeBytes(n, 4) + rest;
    UIntIff(LeBytes(suite, 2) + (key + s2), 2, suite, key + s2);
    TakeIff(key + s2, 32, key, s2);
    BadBlob(n, rest, SigLimit(l), g);
  }

  lemma SectionFails(count: nat, auths: seq<Auth>, bad: seq<byte>, l: Policy, g: Guards)
    requires |auths| < count <= AuthLimit(l) && (forall a | a in auths :: WellFormedAuth(a, l)) && ParseAuth(bad, l, g).Err?
    requires 38 * count <= |EncodeAll(EncodeAuth, auths) + bad|
    ensures AuthSection(LeBytes(count, 2) + (EncodeAll(EncodeAuth, auths) + bad), l, g) == Err(ParseAuth(bad, l, g).reject)
  {
    PowersOf256();
    var s := EncodeAll(EncodeAuth, auths) + bad;
    UIntIff(LeBytes(count, 2) + s, 2, count, s);
    assert Repeat(AuthParser(l, g), s, count, []) == Err(ParseAuth(bad, l, g).reject) by {
      AuthCanonical(l, g);
      RepeatFails(AuthParser(l, g), EncodeAuth, AuthOk(l), auths, bad, count, []);
    }
  }

  /** After any number of good records, one with suite zero, or with a signature declared over its
      limit or longer than what is left. */
  lemma RecordRefused(e: Envelope, count: nat, suite: nat, key: seq<byte>, n: nat, rest: seq<byte>, l: Policy, g: Guards)
    requires FrontOk(e, l) && |e.auth| < count <= AuthLimit(l) && forall a | a in e.auth :: WellFormedAuth(a, l)
    requires suite < 0x1_0000 && |key| == 32 && n < 0x1_0000_0000
    requires var records := EncodeAll(EncodeAuth, e.auth) + (LeBytes(suite, 2) + (key + (LeBytes(n, 4) + rest)));
             38 * count <= |records| && FrameOk(Front(e, LeBytes(count, 2) + records), l, g)
    ensures var records := EncodeAll(EncodeAuth, e.auth) + (LeBytes(suite, 2) + (key + (LeBytes(n, 4) + rest)));
            var r := Decode(Front(e, LeBytes(count, 2) + records), l, g);
            && (suite == 0 ==> r == Err(BadSuite))
            && (suite > 0 && n > SigLimit(l) ==> r == Err(Limit))
            && (suite > 0 && n <= SigLimit(l) && n > |rest| ==> r == Err(if g.blob then BeyondFrame else Truncated))
  {
    var bad := LeBytes(suite, 2) + (key + (LeBytes(n, 4) + rest));
    BadRecord(suite, key, n, rest, l, g);
    if ParseAuth(bad, l, g).Err? {
      SectionFails(count, e.auth, bad, l, g);
      AfterExtension(e, LeBytes(count, 2) + (EncodeAll(EncodeAuth, e.auth) + bad), l, g);
    }
  }

  /** Anything after the last record. */
  lemma TrailingRefused(e: Envelope, more: seq<byte>, l: Policy, g: Guards)
    requires WellFormed(e, l) && more != [] && FrameOk(Encode(e) + more, l, g)
    ensures Decode(Encode(e) + more, l, g) == Err(Trailing)
  {
    EnvelopeComplete(e, more, l, g);
  }
}
