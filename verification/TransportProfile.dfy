/** The byte strings that bind a transport profile and the negotiated
    capabilities into a session digest, and the capability typestate of V11. */
module TransportProfile {
  import opened Bytes
  import Utf8

  datatype Profile = Profile(
    schema: string, kind: nat, protocolId: string, version: nat, framing: nat,
    maxEnvelope: nat, maxHandshake: nat, reliable: bool, ordered: bool, streams: nat)

  /** The values for which no fixed-width field overflows (encoding any other profile raises). */
  predicate Encodable(p: Profile) {
    && |Utf8.Encode(p.schema)| < 0x1_0000_0000 && |Utf8.Encode(p.protocolId)| < 0x1_0000_0000
    && p.kind < 0x100 && p.version < 0x1_0000 && p.framing < 0x100
    && p.maxEnvelope < 0x1_0000_0000 && p.maxHandshake < 0x1_0000_0000 && p.streams < 0x1_0000
  }

  function EncBytes(b: seq<byte>): seq<byte>
    requires |b| < 0x1_0000_0000
  {
    BeBytes(|b|, 4) + b
  }

  function Flag(b: bool): byte {
    if b then 1 else 0
  }

  function FlagsAndStreams(p: Profile): seq<byte> {
    [Flag(p.reliable), Flag(p.ordered)] + BeBytes(p.streams, 2)
  }

  /** The fixed-width fields after the protocol id: 2 + 1 + 4 + 4 + 2 + 2 bytes. */
  function Fixed(p: Profile): (b: seq<byte>)
    ensures |b| == 15
  {
    BeBytes(p.version, 2)
    + (BeBytes(p.framing, 1) + (BeBytes(p.maxEnvelope, 4) + (BeBytes(p.maxHandshake, 4) + FlagsAndStreams(p))))
  }

  function CanonicalProfile(p: Profile): seq<byte>
    requires Encodable(p)
  {
    EncBytes(Utf8.Encode(p.schema)) + BeBytes(p.kind, 1) + EncBytes(Utf8.Encode(p.protocolId)) + Fixed(p)
  }

  // The labels hashed into a context.

  function ContextLabel(): (b: seq<byte>)
    ensures |b| == 35
  {
    Ascii("xenia-negotiated-session-context-v2")
  }

  function EnvelopeLabel(): (b: seq<byte>)
    ensures |b| == 29
  {
    Ascii("xenia-wire-sealed-envelope-v1")
  }

  function SuiteLabel(): (b: seq<byte>)
    ensures |b| == 23
  {
    Ascii("hybrid-pq-transcript-v1")
  }

  function TranscriptLabel(): (b: seq<byte>)
    ensures |b| == 29
  {
    Ascii("xenia-handshake-transcript-v1")
  }

  function ScheduleLabel(): (b: seq<byte>)
    ensures |b| == 29
  {
    Ascii("xenia-session-key-schedule-v1")
  }

  function ContextTag(): seq<byte> {
    EncBytes(ContextLabel())
  }

  function SuiteLabels(): seq<byte> {
    EncBytes(EnvelopeLabel()) + EncBytes(SuiteLabel()) + EncBytes(TranscriptLabel()) + EncBytes(ScheduleLabel())
  }

  predicate ContextEncodable(p: Profile, caps: seq<byte>) {
    Encodable(p) && |CanonicalProfile(p)| < 0x1_0000_0000 && |caps| < 0x1_0000_0000
  }

  /** What the V1 context digest hashes. */
  function ContextBody(p: Profile, caps: seq<byte>): seq<byte>
    requires ContextEncodable(p, caps)
  {
    ContextTag() + EncBytes(CanonicalProfile(p)) + SuiteLabels() + EncBytes(caps)
  }

  /** What the V11 digest hashes: the profile has no length prefix of its own. */
  function BodyV11(p: Profile, caps: seq<byte>): seq<byte>
    requires Encodable(p) && |caps| < 0x1_0000_0000
  {
    CanonicalProfile(p) + EncBytes(caps)
  }

  // The bytes, field by field.

  /** A length in four big-endian bytes, and the bytes. */
  function Field(x: seq<byte>): seq<byte>
    requires |x| < 0x1_0000_0000
  {
    [|x| / 16_777_216, |x| / 65_536 % 256, |x| / 256 % 256, |x| % 256] + x
  }

  lemma EncBytesIsField(x: seq<byte>)
    requires |x| < 0x1_0000_0000
    ensures EncBytes(x) == Field(x)
  {
    var n, b := |x|, BeBytes(|x|, 4);
    BeFour(n);
    FourDigits(n, b[0], b[1], b[2], b[3]);
  }

  lemma FourDigits(n: nat, w: byte, x: byte, y: byte, z: byte)
    requires n == 16_777_216 * (w as int) + 65_536 * (x as int) + 256 * (y as int) + z as int
    ensures n / 16_777_216 == w && n / 65_536 % 256 == x && n / 256 % 256 == y && n % 256 == z
  {
    assert n / 256 == 65_536 * (w as int) + 256 * (x as int) + y as int;
    assert n / 65_536 == 256 * (w as int) + x as int;
  }

  lemma TwoDigits(n: nat)
    requires n < 0x1_0000
    ensures BeBytes(n, 2) == [n / 256, n % 256]
  {
    assert BeBytes(n, 2) == BeBytes(n / 256, 1) + [n % 256];
    assert BeBytes(n / 256, 1) == BeBytes(n / 256 / 256, 0) + [n / 256 % 256];
  }

  lemma OneDigit(n: nat)
    requires n < 0x100
    ensures BeBytes(n, 1) == [n]
  {
    assert BeBytes(n, 1) == BeBytes(n / 256, 0) + [n % 256];
  }

  lemma FourAsBytes(n: nat)
    requires n < 0x1_0000_0000
    ensures BeBytes(n, 4) == [n / 16_777_216, n / 65_536 % 256, n / 256 % 256, n % 256]
  {
    var b := BeBytes(n, 4);
    BeFour(n);
    FourDigits(n, b[0], b[1], b[2], b[3]);
  }

  /** Schema, kind, protocol id, version, framing, both limits, both flags and the stream count, in
      this order and with these widths. */
  lemma ProfileLayout(p: Profile)
    requires Encodable(p)
    ensures CanonicalProfile(p)
            == Field(Utf8.Encode(p.schema)) + [p.kind] + Field(Utf8.Encode(p.protocolId))
               + ([p.version / 256, p.version % 256] + ([p.framing]
                  + ([p.maxEnvelope / 16_777_216, p.maxEnvelope / 65_536 % 256, p.maxEnvelope / 256 % 256, p.maxEnvelope % 256]
                     + ([p.maxHandshake / 16_777_216, p.maxHandshake / 65_536 % 256, p.maxHandshake / 256 % 256, p.maxHandshake % 256]
                        + ([if p.reliable then 1 else 0, if p.ordered then 1 else 0] + [p.streams / 256, p.streams % 256])))))
  {
    EncBytesIsField(Utf8.Encode(p.schema));
    EncBytesIsField(Utf8.Encode(p.protocolId));
    OneDigit(p.kind);
    TwoDigits(p.version);
    OneDigit(p.framing);
    FourAsBytes(p.maxEnvelope);
    FourAsBytes(p.maxHandshake);
    TwoDigits(p.streams);
  }

  /** The V1 context body is seven length-prefixed fields. */
  lemma ContextLayout(p: Profile, caps: seq<byte>)
    requires ContextEncodable(p, caps)
    ensures ContextBody(p, caps)
            == Field(ContextLabel()) + Field(CanonicalProfile(p))
               + (Field(EnvelopeLabel()) + Field(SuiteLabel()) + Field(TranscriptLabel()) + Field(ScheduleLabel()))
               + Field(caps)
  {
    SevenFields(ContextLabel(), CanonicalProfile(p), EnvelopeLabel(), SuiteLabel(), TranscriptLabel(), ScheduleLabel(), caps);
  }

  /** The labels, as the handshake and the envelope layer spell them. */
  lemma LabelTexts()
    ensures ContextLabel() == Ascii("xenia-negotiated-session-context-v2") && EnvelopeLabel() == Ascii("xenia-wire-sealed-envelope-v1")
  {
  }

  lemma HandshakeLabelTexts()
    ensures SuiteLabel() == Ascii("hybrid-pq-transcript-v1") && TranscriptLabel() == Ascii("xenia-handshake-transcript-v1")
    ensures ScheduleLabel() == Ascii("xenia-session-key-schedule-v1")
  {
  }

  predicate Short(x: seq<byte>) {
    |x| < 0x1_0000_0000
  }

  lemma SevenFields(a: seq<byte>, b: seq<byte>, s: seq<byte>, t: seq<byte>, u: seq<byte>, v: seq<byte>, c: seq<byte>)
    requires Short(a) && Short(b) && Short(s) && Short(t) && Short(u) && Short(v) && Short(c)
    ensures EncBytes(a) + EncBytes(b) + (EncBytes(s) + EncBytes(t) + EncBytes(u) + EncBytes(v)) + EncBytes(c)
            == Field(a) + Field(b) + (Field(s) + Field(t) + Field(u) + Field(v)) + Field(c)
  {
    EncBytesIsField(a);
    EncBytesIsField(b);
    EncBytesIsField(s);
    EncBytesIsField(t);
    EncBytesIsField(u);
    EncBytesIsField(v);
    EncBytesIsField(c);
  }

  /** The V11 body is the bare profile and the length-prefixed capabilities. */
  lemma BodyV11Layout(p: Profile, caps: seq<byte>)
    requires Encodable(p) && |caps| < 0x1_0000_0000
    ensures BodyV11(p, caps) == CanonicalProfile(p) + Field(caps)
  {
    EncBytesIsField(caps);
  }

  lemma EncBytesPrefixFree(a: seq<byte>, x: seq<byte>, b: seq<byte>, y: seq<byte>)
    requires |a| < 0x1_0000_0000 && |b| < 0x1_0000_0000
    requires EncBytes(a) + x == EncBytes(b) + y
    ensures a == b && x == y
  {
    PowersOf256();
    assert EncBytes(a) + x == BeBytes(|a|, 4) + (a + x) && EncBytes(b) + y == BeBytes(|b|, 4) + (b + y);
    Split(BeBytes(|a|, 4), a + x, BeBytes(|b|, 4), b + y);
    BeInjective(|a|, |b|, 4);
    Split(a, x, b, y);
  }

  lemma FixedInjective(p: Profile, q: Profile)
    requires Encodable(p) && Encodable(q) && Fixed(p) == Fixed(q)
    ensures p.(schema := q.schema, kind := q.kind, protocolId := q.protocolId) == q
  {
    PowersOf256();
    var p4, q4 := FlagsAndStreams(p), FlagsAndStreams(q);
    var p3, q3 := BeBytes(p.maxHandshake, 4) + p4, BeBytes(q.maxHandshake, 4) + q4;
    var p2, q2 := BeBytes(p.maxEnvelope, 4) + p3, BeBytes(q.maxEnvelope, 4) + q3;
    var p1, q1 := BeBytes(p.framing, 1) + p2, BeBytes(q.framing, 1) + q2;
    Split(BeBytes(p.version, 2), p1, BeBytes(q.version, 2), q1);
    BeInjective(p.version, q.version, 2);
    Split(BeBytes(p.framing, 1), p2, BeBytes(q.framing, 1), q2);
    BeInjective(p.framing, q.framing, 1);
    Split(BeBytes(p.maxEnvelope, 4), p3, BeBytes(q.maxEnvelope, 4), q3);
    BeInjective(p.maxEnvelope, q.maxEnvelope, 4);
    Split(BeBytes(p.maxHandshake, 4), p4, BeBytes(q.maxHandshake, 4), q4);
    BeInjective(p.maxHandshake, q.maxHandshake, 4);
    Split([Flag(p.reliable), Flag(p.ordered)], BeBytes(p.streams, 2), [Flag(q.reliable), Flag(q.ordered)], BeBytes(q.streams, 2));
    BeInjective(p.streams, q.streams, 2);
  }

  lemma FieldsPrefixFree(a: seq<byte>, k: seq<byte>, b: seq<byte>, f: seq<byte>, x: seq<byte>,
                         c: seq<byte>, l: seq<byte>, d: seq<byte>, g: seq<byte>, y: seq<byte>)
    requires |a| < 0x1_0000_0000 && |b| < 0x1_0000_0000 && |c| < 0x1_0000_0000 && |d| < 0x1_0000_0000
    requires |k| == |l| && |f| == |g|
    requires EncBytes(a) + k + EncBytes(b) + f + x == EncBytes(c) + l + EncBytes(d) + g + y
    ensures a == c && k == l && b == d && f == g && x == y
  {
    var u, v := EncBytes(b) + (f + x), EncBytes(d) + (g + y);
    FivePieces(EncBytes(a), k, EncBytes(b), f, x);
    FivePieces(EncBytes(c), l, EncBytes(d), g, y);
    EncBytesPrefixFree(a, k + u, c, l + v);
    Split(k, u, l, v);
    EncBytesPrefixFree(b, f + x, d, g + y);
    Split(f, x, g, y);
  }

  lemma FivePieces(a: seq<byte>, k: seq<byte>, b: seq<byte>, f: seq<byte>, x: seq<byte>)
    ensures a + k + b + f + x == a + (k + (b + (f + x)))
  {
  }

  /** No profile's encoding is a prefix of another's: the profile can be read off
      the front of any longer string. */
  lemma ProfilePrefixFree(p: Profile, x: seq<byte>, q: Profile, y: seq<byte>)
    requires Encodable(p) && Encodable(q)
    requires CanonicalProfile(p) + x == CanonicalProfile(q) + y
    ensures p == q && x == y
  {
    FieldsPrefixFree(Utf8.Encode(p.schema), BeBytes(p.kind, 1), Utf8.Encode(p.protocolId), Fixed(p), x,
                     Utf8.Encode(q.schema), BeBytes(q.kind, 1), Utf8.Encode(q.protocolId), Fixed(q), y);
    PowersOf256();
    BeInjective(p.kind, q.kind, 1);
    FixedInjective(p, q);
    Utf8.EncodeInjective(p.schema, q.schema);
    Utf8.EncodeInjective(p.protocolId, q.protocolId);
  }

  lemma SplitTag(tag: seq<byte>, a: seq<byte>, mid: seq<byte>, c: seq<byte>, b: seq<byte>, d: seq<byte>)
    requires tag + a + mid + c == tag + b + mid + d
    ensures a + (mid + c) == b + (mid + d)
  {
    assert tag + a + mid + c == tag + (a + (mid + c)) && tag + b + mid + d == tag + (b + (mid + d));
    Split(tag, a + (mid + c), tag, b + (mid + d));
  }

  lemma SealedPairInjective(tag: seq<byte>, mid: seq<byte>, a: seq<byte>, c: seq<byte>, b: seq<byte>, d: seq<byte>)
    requires |a| < 0x1_0000_0000 && |b| < 0x1_0000_0000 && |c| < 0x1_0000_0000 && |d| < 0x1_0000_0000
    requires tag + EncBytes(a) + mid + EncBytes(c) == tag + EncBytes(b) + mid + EncBytes(d)
    ensures a == b && c == d
  {
    var x, y := mid + EncBytes(c), mid + EncBytes(d);
    SplitTag(tag, EncBytes(a), mid, EncBytes(c), EncBytes(b), EncBytes(d));
    EncBytesPrefixFree(a, x, b, y);
    Split(mid, EncBytes(c), mid, EncBytes(d));
    EncBytesPrefixFree(c, [], d, []);
  }

  /** Equal V1 digests mean equal profiles and capabilities, or exhibit a hash collision. */
  lemma ContextDigestBinds(hash: seq<byte> -> Bytes32, p: Profile, c: seq<byte>, q: Profile, d: seq<byte>)
    requires ContextEncodable(p, c) && ContextEncodable(q, d)
    ensures hash(ContextBody(p, c)) == hash(ContextBody(q, d)) ==> (p == q && c == d) || Collision(hash, ContextBody(p, c), ContextBody(q, d))
  {
    if ContextBody(p, c) == ContextBody(q, d) {
      SealedPairInjective(ContextTag(), SuiteLabels(), CanonicalProfile(p), c, CanonicalProfile(q), d);
      ProfilePrefixFree(p, [], q, []);
    }
  }

  /** The same for V11, where reading the profile back needs it to be prefix-free. */
  lemma DigestV11Binds(hash: seq<byte> -> Bytes32, p: Profile, c: seq<byte>, q: Profile, d: seq<byte>)
    requires Encodable(p) && Encodable(q) && |c| < 0x1_0000_0000 && |d| < 0x1_0000_0000
    ensures hash(BodyV11(p, c)) == hash(BodyV11(q, d)) ==> (p == q && c == d) || Collision(hash, BodyV11(p, c), BodyV11(q, d))
  {
    if BodyV11(p, c) == BodyV11(q, d) {
      ProfilePrefixFree(p, EncBytes(c), q, EncBytes(d));
      EncBytesPrefixFree(c, [], d, []);
    }
  }

  /** A trace is accepted exactly when capabilities ('C') come once, before every payload ('P'). */
  method ValidTrace(trace: string) returns (ok: bool)
    ensures ok <==> exists c :: 0 <= c < |trace| && trace[c] == 'C'
                                && forall j :: 0 <= j < |trace| ==> (trace[j] == 'C' ==> j == c) && (trace[j] == 'P' ==> c < j)
  {
    var authenticated := false;
    ghost var c := 0;
    for i := 0 to |trace|
      invariant authenticated ==> 0 <= c < i && trace[c] == 'C'
      invariant forall j :: 0 <= j < i && trace[j] == 'C' ==> authenticated && j == c
      invariant forall j :: 0 <= j < i && trace[j] == 'P' ==> authenticated && c < j
    {
      if trace[i] == 'C' {
        if authenticated {
          return false;
        }
        authenticated, c := true, i;
      } else if trace[i] == 'P' {
        if !authenticated {
          return false;
        }
      }
    }
    ok := authenticated;
  }
}
