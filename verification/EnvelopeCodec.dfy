/** The XZKENV01 proof-envelope format: its encoder, its parser, and the proof
    that the parser accepts exactly the encodings of well-formed envelopes. */
module EnvelopeCodec {
  import opened Bytes
  import Utf8

  const MAGIC: seq<byte> := [0x58, 0x5A, 0x4B, 0x45, 0x4E, 0x56, 0x30, 0x31]
  const MAX_TEXT := 64
  const MIN_AUTH_BYTES := 38

  /** The size limits a deployment sets. */
  datatype Policy = Policy(maxFrame: nat, maxProof: nat, maxSig: nat, maxAuth: nat)

  /** The limits of the reference script. */
  const REFERENCE := Policy(1024 * 1024, 512 * 1024, 16 * 1024, 4)

  /** The limits of the fuzz target. */
  const FUZZED := Policy(64 * 1024, 32 * 1024, 16 * 1024, 8)

  // A length that does not fit its field is never within the limit.

  function ProofLimit(l: Policy): nat {
    if l.maxProof < 0xFFFF_FFFF then l.maxProof else 0xFFFF_FFFF
  }

  function SigLimit(l: Policy): nat {
    if l.maxSig < 0xFFFF_FFFF then l.maxSig else 0xFFFF_FFFF
  }

  function AuthLimit(l: Policy): nat {
    if l.maxAuth < 0xFFFF then l.maxAuth else 0xFFFF
  }

  datatype Head = Head(version: nat, parts: seq<seq<byte>>, statementVersion: nat, proofSystem: nat)
  datatype Core = Core(verifier: seq<byte>, params: seq<byte>, timestamp: nat, nonce: seq<byte>, inputs: seq<byte>)
  datatype Auth = Auth(suite: nat, key: seq<byte>, sig: seq<byte>)
  datatype Envelope = Envelope(head: Head, core: Core, proof: seq<byte>, ext: seq<byte>, auth: seq<Auth>)

  predicate WellFormedText(t: seq<byte>) {
    |t| <= MAX_TEXT && Utf8.Valid(t)
  }

  predicate WellFormedHead(h: Head) {
    && h.version < 0x1_0000_0000
    && |h.parts| == 3 && (forall t | t in h.parts :: WellFormedText(t))
    && 0 < h.statementVersion < 0x1_0000_0000 && 0 < h.proofSystem < 0x1_0000
  }

  predicate WellFormedCore(c: Core) {
    && |c.verifier| == |c.params| == |c.nonce| == |c.inputs| == 32
    && c.timestamp < 0x1_0000_0000_0000_0000
  }

  predicate WellFormedAuth(a: Auth, l: Policy) {
    0 < a.suite < 0x1_0000 && |a.key| == 32 && |a.sig| <= SigLimit(l)
  }

  predicate WellFormed(e: Envelope, l: Policy) {
    && WellFormedHead(e.head) && WellFormedCore(e.core)
    && |e.proof| <= ProofLimit(l) && |e.ext| == 32
    && |e.auth| <= AuthLimit(l) && (forall a | a in e.auth :: WellFormedAuth(a, l))
  }

  // Encoder.

  function EncodeText(t: seq<byte>): seq<byte> {
    LeBytes(|t|, 1) + t
  }

  function EncodeAll<T>(enc: T -> seq<byte>, vs: seq<T>): seq<byte> {
    if vs == [] then [] else enc(vs[0]) + EncodeAll(enc, vs[1..])
  }

  function EncodeBlob(b: seq<byte>): seq<byte> {
    LeBytes(|b|, 4) + b
  }

  function EncodeHead(h: Head): seq<byte> {
    LeBytes(h.version, 4) + EncodeAll(EncodeText, h.parts) + LeBytes(h.statementVersion, 4) + LeBytes(h.proofSystem, 2)
  }

  function EncodeCore(c: Core): seq<byte> {
    c.verifier + c.params + LeBytes(c.timestamp, 8) + c.nonce + c.inputs
  }

  function EncodeAuth(a: Auth): seq<byte> {
    LeBytes(a.suite, 2) + a.key + EncodeBlob(a.sig)
  }

  function Encode(e: Envelope): seq<byte> {
    MAGIC + EncodeHead(e.head) + EncodeCore(e.core) + EncodeBlob(e.proof) + e.ext
    + LeBytes(|e.auth|, 2) + EncodeAll(EncodeAuth, e.auth)
  }

  // Parser: each step takes the unread bytes and returns a value with what is left.

  datatype Reject =
    | BadFrame | BadMagic | Truncated | TextLimit | NotUtf8 | Reserved
    | Limit | BeyondFrame | AuthCount | AuthMinFrame | BadSuite | Trailing

  datatype Result<+T> = Ok(value: T) | Err(reject: Reject) {
    predicate IsFailure() { Err? }
    function PropagateFailure<U>(): Result<U>
      requires Err?
    {
      Err(reject)
    }
    function Extract(): T
      requires Ok?
    {
      value
    }
  }

  type Parsed<+T> = Result<(T, seq<byte>)>

  /** Which of the checks that run ahead of the field they protect are in force. */
  datatype Guards = Guards(frame: bool, blob: bool, auth: bool)

  const ALL_GUARDS := Guards(true, true, true)

  function Take(s: seq<byte>, n: nat): Parsed<seq<byte>> {
    if n > |s| then Err(Truncated) else Ok((s[..n], s[n..]))
  }

  function UInt(s: seq<byte>, n: nat): Parsed<nat> {
    var (v, rest) :- Take(s, n);
    Ok((LeValue(v), rest))
  }

  function Text(s: seq<byte>): Parsed<seq<byte>> {
    var (n, rest) :- UInt(s, 1);
    if n > MAX_TEXT then Err(TextLimit) else
    var (raw, rest) :- Take(rest, n);
    if !Utf8.Valid(raw) then Err(NotUtf8) else
    Ok((raw, rest))
  }

  /** Run `p` n times, appending each value. */
  function Repeat<T>(p: seq<byte> -> Parsed<T>, s: seq<byte>, n: nat, acc: seq<T>): Parsed<seq<T>>
    decreases n
  {
    if n == 0 then Ok((acc, s)) else
    var (v, rest) :- p(s);
    Repeat(p, rest, n - 1, acc + [v])
  }

  function Blob(s: seq<byte>, limit: nat, g: Guards): Parsed<seq<byte>> {
    var (n, rest) :- UInt(s, 4);
    if n > limit then Err(Limit) else
    if g.blob && n > |rest| then Err(BeyondFrame) else
    Take(rest, n)
  }

  function ParseHead(s: seq<byte>): Parsed<Head> {
    var (version, s) :- UInt(s, 4);
    var (parts, s) :- Repeat(Text, s, 3, []);
    var (statementVersion, s) :- UInt(s, 4);
    var (proofSystem, s) :- UInt(s, 2);
    if statementVersion == 0 || proofSystem == 0 then Err(Reserved) else
    Ok((Head(version, parts, statementVersion, proofSystem), s))
  }

  function ParseCore(s: seq<byte>): Parsed<Core> {
    var (verifier, s) :- Take(s, 32);
    var (params, s) :- Take(s, 32);
    var (timestamp, s) :- UInt(s, 8);
    var (nonce, s) :- Take(s, 32);
    var (inputs, s) :- Take(s, 32);
    Ok((Core(verifier, params, timestamp, nonce, inputs), s))
  }

  function ParseAuth(s: seq<byte>, l: Policy, g: Guards): Parsed<Auth> {
    var (suite, s) :- UInt(s, 2);
    if suite == 0 then Err(BadSuite) else
    var (key, s) :- Take(s, 32);
    var (sig, s) :- Blob(s, SigLimit(l), g);
    Ok((Auth(suite, key, sig), s))
  }

  function AuthParser(l: Policy, g: Guards): seq<byte> -> Parsed<Auth> {
    s => ParseAuth(s, l, g)
  }

  function AuthOk(l: Policy): Auth -> bool {
    (a: Auth) => WellFormedAuth(a, l)
  }

  function AuthSection(s: seq<byte>, l: Policy, g: Guards): Parsed<seq<Auth>> {
    var (count, s) :- UInt(s, 2);
    if count > AuthLimit(l) then Err(AuthCount) else
    if g.auth && count * MIN_AUTH_BYTES > |s| then Err(AuthMinFrame) else
    Repeat(AuthParser(l, g), s, count, [])
  }

  /** Everything after the frame check, up to the first byte past the envelope. */
  function ParseEnvelope(s: seq<byte>, l: Policy, g: Guards): Parsed<Envelope> {
    var (magic, s) :- Take(s, 8);
    if magic != MAGIC then Err(BadMagic) else
    var (head, s) :- ParseHead(s);
    var (core, s) :- ParseCore(s);
    var (proof, s) :- Blob(s, ProofLimit(l), g);
    var (ext, s) :- Take(s, 32);
    var (auth, s) :- AuthSection(s, l, g);
    Ok((Envelope(head, core, proof, ext, auth), s))
  }

  function Decode(b: seq<byte>, l: Policy, g: Guards): Result<Envelope> {
    if g.frame && (b == [] || |b| > l.maxFrame) then Err(BadFrame) else
    var (e, rest) :- ParseEnvelope(b, l, g);
    if rest != [] then Err(Trailing) else Ok(e)
  }

  // What each step accepts: exactly the encodings of well-formed values.

  lemma TakeIff(s: seq<byte>, n: nat, v: seq<byte>, rest: seq<byte>)
    ensures Take(s, n) == Ok((v, rest)) <==> |v| == n && s == v + rest
  {
    if n <= |s| {
      assert s == s[..n] + s[n..];
    }
    if |v| == n && s == v + rest {
      assert s[..n] == v && s[n..] == rest;
    }
  }

  lemma UIntIff(s: seq<byte>, n: nat, v: nat, rest: seq<byte>)
    ensures UInt(s, n) == Ok((v, rest)) <==> v < Pow256(n) && s == LeBytes(v, n) + rest
  {
    if n <= |s| {
      TakeIff(s, n, s[..n], s[n..]);
      LeBytesOfValue(s[..n]);
    }
    if v < Pow256(n) && s == LeBytes(v, n) + rest {
      TakeIff(s, n, LeBytes(v, n), rest);
      LeValueOfBytes(v, n);
    }
  }

  lemma TextIff(s: seq<byte>, t: seq<byte>, rest: seq<byte>)
    ensures Text(s) == Ok((t, rest)) <==> WellFormedText(t) && s == EncodeText(t) + rest
  {
    PowersOf256();
    assert EncodeText(t) + rest == LeBytes(|t|, 1) + (t + rest);
    if Text(s).Ok? {
      var (n, s1) := UInt(s, 1).value;
      UIntIff(s, 1, n, s1);
      TakeIff(s1, n, Take(s1, n).value.0, Take(s1, n).value.1);
    }
    if WellFormedText(t) && s == EncodeText(t) + rest {
      UIntIff(s, 1, |t|, t + rest);
      TakeIff(t + rest, |t|, t, rest);
    }
  }

  /** `p` accepts exactly the encodings of values that satisfy `wf`, and leaves what follows. */
  ghost predicate Canonical<T(!new)>(p: seq<byte> -> Parsed<T>, enc: T -> seq<byte>, wf: T -> bool) {
    && (forall s :: p(s).Ok? ==> wf(p(s).value.0) && s == enc(p(s).value.0) + p(s).value.1)
    && (forall v, rest :: wf(v) ==> p(enc(v) + rest) == Ok((v, rest)))
  }

  lemma {:induction false} RepeatSound<T(!new)>(p: seq<byte> -> Parsed<T>, enc: T -> seq<byte>, wf: T -> bool,
                                                s: seq<byte>, n: nat, acc: seq<T>)
    requires Canonical(p, enc, wf) && Repeat(p, s, n, acc).Ok?
    ensures var (all, rest) := Repeat(p, s, n, acc).value;
            && |all| == |acc| + n && all[..|acc|] == acc
            && (forall v | v in all[|acc|..] :: wf(v))
            && s == EncodeAll(enc, all[|acc|..]) + rest
    decreases n
  {
    if n > 0 {
      var (v, s1) := p(s).value;
      RepeatSound(p, enc, wf, s1, n - 1, acc + [v]);
      var (all, rest) := Repeat(p, s, n, acc).value;
      assert all[|acc|..] == [v] + all[|acc| + 1..];
      assert all[..|acc|] == all[..|acc| + 1][..|acc|];
      assert s == enc(v) + (EncodeAll(enc, all[|acc| + 1..]) + rest);
    }
  }

  lemma {:induction false} RepeatComplete<T(!new)>(p: seq<byte> -> Parsed<T>, enc: T -> seq<byte>, wf: T -> bool,
                                                   acc: seq<T>, vs: seq<T>, rest: seq<byte>)
    requires Canonical(p, enc, wf) && forall v | v in vs :: wf(v)
    ensures Repeat(p, EncodeAll(enc, vs) + rest, |vs|, acc) == Ok((acc + vs, rest))
    decreases |vs|
  {
    if vs == [] {
      assert acc + vs == acc && EncodeAll(enc, vs) + rest == rest;
    } else {
      var s1 := EncodeAll(enc, vs[1..]) + rest;
      assert EncodeAll(enc, vs) + rest == enc(vs[0]) + s1;
      RepeatComplete(p, enc, wf, acc + [vs[0]], vs[1..], rest);
      assert acc + [vs[0]] + vs[1..] == acc + vs;
    }
  }

  lemma TextCanonical()
    ensures Canonical(Text, EncodeText, WellFormedText)
  {
    forall s | Text(s).Ok?
      ensures WellFormedText(Text(s).value.0) && s == EncodeText(Text(s).value.0) + Text(s).value.1
    {
      TextIff(s, Text(s).value.0, Text(s).value.1);
    }
    forall t, rest | WellFormedText(t) ensures Text(EncodeText(t) + rest) == Ok((t, rest)) {
      TextIff(EncodeText(t) + rest, t, rest);
    }
  }

  lemma TextsSound(s: seq<byte>)
    requires Repeat(Text, s, 3, []).Ok?
    ensures var (parts, rest) := Repeat(Text, s, 3, []).value;
            |parts| == 3 && (forall t | t in parts :: WellFormedText(t)) && s == EncodeAll(EncodeText, parts) + rest
  {
    TextCanonical();
    RepeatSound(Text, EncodeText, WellFormedText, s, 3, []);
    assert Repeat(Text, s, 3, []).value.0[0..] == Repeat(Text, s, 3, []).value.0;
  }

  lemma BlobIff(s: seq<byte>, limit: nat, g: Guards, b: seq<byte>, rest: seq<byte>)
    requires limit < 0x1_0000_0000
    ensures Blob(s, limit, g) == Ok((b, rest)) <==> |b| <= limit && s == EncodeBlob(b) + rest
  {
    PowersOf256();
    assert EncodeBlob(b) + rest == LeBytes(|b|, 4) + (b + rest);
    if Blob(s, limit, g).Ok? {
      var (n, s1) := UInt(s, 4).value;
      UIntIff(s, 4, n, s1);
      TakeIff(s1, n, Take(s1, n).value.0, Take(s1, n).value.1);
    }
    if |b| <= limit && s == EncodeBlob(b) + rest {
      UIntIff(s, 4, |b|, b + rest);
      TakeIff(b + rest, |b|, b, rest);
    }
  }

  lemma Join4(s: seq<byte>, a: seq<byte>, s1: seq<byte>, b: seq<byte>, s2: seq<byte>, c: seq<byte>, s3: seq<byte>,
              d: seq<byte>, rest: seq<byte>)
    requires s == a + s1 && s1 == b + s2 && s2 == c + s3 && s3 == d + rest
    ensures s == a + b + c + d + rest
  {
  }

  lemma HeadSound(s: seq<byte>)
    requires ParseHead(s).Ok?
    ensures var (h, rest) := ParseHead(s).value; WellFormedHead(h) && s == EncodeHead(h) + rest
  {
    PowersOf256();
    var (h, rest) := ParseHead(s).value;
    var s1 := UInt(s, 4).value.1;
    var s2 := Repeat(Text, s1, 3, []).value.1;
    var s3 := UInt(s2, 4).value.1;
    UIntIff(s, 4, h.version, s1);
    TextsSound(s1);
    UIntIff(s2, 4, h.statementVersion, s3);
    UIntIff(s3, 2, h.proofSystem, rest);
    Join4(s, LeBytes(h.version, 4), s1, EncodeAll(EncodeText, h.parts), s2, LeBytes(h.statementVersion, 4), s3,
          LeBytes(h.proofSystem, 2), rest);
  }

  lemma HeadComplete(h: Head, rest: seq<byte>)
    requires WellFormedHead(h)
    ensures ParseHead(EncodeHead(h) + rest) == Ok((h, rest))
  {
    PowersOf256();
    var s3 := LeBytes(h.proofSystem, 2) + rest;
    var s2 := LeBytes(h.statementVersion, 4) + s3;
    var s1 := EncodeAll(EncodeText, h.parts) + s2;
    assert EncodeHead(h) + rest == LeBytes(h.version, 4) + s1;
    UIntIff(EncodeHead(h) + rest, 4, h.version, s1);
    assert Repeat(Text, s1, 3, []) == Ok((h.parts, s2)) by {
      TextCanonical();
      RepeatComplete(Text, EncodeText, WellFormedText, [], h.parts, s2);
      assert [] + h.parts == h.parts;
    }
    UIntIff(s2, 4, h.statementVersion, s3);
    UIntIff(s3, 2, h.proofSystem, rest);
  }

  lemma CoreNested(c: Core, rest: seq<byte>)
    ensures EncodeCore(c) + rest == c.verifier + (c.params + (LeBytes(c.timestamp, 8) + (c.nonce + (c.inputs + rest))))
  {
  }

  lemma CoreSound(s: seq<byte>)
    requires ParseCore(s).Ok?
    ensures var (c, rest) := ParseCore(s).value; WellFormedCore(c) && s == EncodeCore(c) + rest
  {
    PowersOf256();
    var (c, rest) := ParseCore(s).value;
    var s1 := s[32..];
    var s2 := s1[32..];
    var s3 := s2[8..];
    var s4 := s3[32..];
    TakeIff(s, 32, c.verifier, s1);
    TakeIff(s1, 32, c.params, s2);
    UIntIff(s2, 8, c.timestamp, s3);
    TakeIff(s3, 32, c.nonce, s4);
    TakeIff(s4, 32, c.inputs, rest);
    CoreNested(c, rest);
  }

  lemma CoreComplete(c: Core, rest: seq<byte>)
    requires WellFormedCore(c)
    ensures ParseCore(EncodeCore(c) + rest) == Ok((c, rest))
  {
    PowersOf256();
    var s4 := c.inputs + rest;
    var s3 := c.nonce + s4;
    var s2 := LeBytes(c.timestamp, 8) + s3;
    var s1 := c.params + s2;
    CoreNested(c, rest);
    TakeIff(EncodeCore(c) + rest, 32, c.verifier, s1);
    TakeIff(s1, 32, c.params, s2);
    UIntIff(s2, 8, c.timestamp, s3);
    TakeIff(s3, 32, c.nonce, s4);
    TakeIff(s4, 32, c.inputs, rest);
  }

  lemma AuthSound(s: seq<byte>, l: Policy, g: Guards)
    requires ParseAuth(s, l, g).Ok?
    ensures var (a, rest) := ParseAuth(s, l, g).value; WellFormedAuth(a, l) && s == EncodeAuth(a) + rest
  {
    PowersOf256();
    var (a, rest) := ParseAuth(s, l, g).value;
    var s1 := s[2..];
    var s2 := s1[32..];
    UIntIff(s, 2, a.suite, s1);
    TakeIff(s1, 32, a.key, s2);
    BlobIff(s2, SigLimit(l), g, a.sig, rest);
    assert s == LeBytes(a.suite, 2) + (a.key + (EncodeBlob(a.sig) + rest));
  }

  lemma AuthComplete(a: Auth, rest: seq<byte>, l: Policy, g: Guards)
    requires WellFormedAuth(a, l)
    ensures ParseAuth(EncodeAuth(a) + rest, l, g) == Ok((a, rest))
  {
    PowersOf256();
    var s2 := EncodeBlob(a.sig) + rest;
    var s1 := a.key + s2;
    assert EncodeAuth(a) + rest == LeBytes(a.suite, 2) + s1;
    UIntIff(EncodeAuth(a) + rest, 2, a.suite, s1);
    TakeIff(s1, 32, a.key, s2);
    BlobIff(s2, SigLimit(l), g, a.sig, rest);
  }

  lemma AuthCanonical(l: Policy, g: Guards)
    ensures Canonical(AuthParser(l, g), EncodeAuth, AuthOk(l))
  {
    forall s | ParseAuth(s, l, g).Ok?
      ensures WellFormedAuth(ParseAuth(s, l, g).value.0, l)
      ensures s == EncodeAuth(ParseAuth(s, l, g).value.0) + ParseAuth(s, l, g).value.1
    {
      AuthSound(s, l, g);
    }
    forall a, rest | WellFormedAuth(a, l) ensures ParseAuth(EncodeAuth(a) + rest, l, g) == Ok((a, rest)) {
      AuthComplete(a, rest, l, g);
    }
  }

  lemma {:induction false} AuthsSize(auths: seq<Auth>)
    requires forall a | a in auths :: |a.key| == 32
    ensures MIN_AUTH_BYTES * |auths| <= |EncodeAll(EncodeAuth, auths)|
  {
    if auths != [] {
      AuthsSize(auths[1..]);
      assert |auths[0].key| == 32;
    }
  }

  lemma AuthsSound(s: seq<byte>, n: nat, l: Policy, g: Guards)
    requires Repeat(AuthParser(l, g), s, n, []).Ok?
    ensures var (auths, rest) := Repeat(AuthParser(l, g), s, n, []).value;
            |auths| == n && (forall a | a in auths :: WellFormedAuth(a, l)) && s == EncodeAll(EncodeAuth, auths) + rest
  {
    AuthCanonical(l, g);
    RepeatSound(AuthParser(l, g), EncodeAuth, AuthOk(l), s, n, []);
    var auths := Repeat(AuthParser(l, g), s, n, []).value.0;
    assert auths[0..] == auths;
    forall a | a in auths ensures WellFormedAuth(a, l) {
      assert AuthOk(l)(a);
    }
  }

  lemma AuthsComplete(auths: seq<Auth>, rest: seq<byte>, l: Policy, g: Guards)
    requires forall a | a in auths :: WellFormedAuth(a, l)
    ensures Repeat(AuthParser(l, g), EncodeAll(EncodeAuth, auths) + rest, |auths|, []) == Ok((auths, rest))
  {
    AuthCanonical(l, g);
    RepeatComplete(AuthParser(l, g), EncodeAuth, AuthOk(l), [], auths, rest);
    assert [] + auths == auths;
  }

  lemma AuthSectionSound(s: seq<byte>, l: Policy, g: Guards)
    requires AuthSection(s, l, g).Ok?
    ensures var (auths, rest) := AuthSection(s, l, g).value;
            && |auths| <= AuthLimit(l) && (forall a | a in auths :: WellFormedAuth(a, l))
            && s == LeBytes(|auths|, 2) + (EncodeAll(EncodeAuth, auths) + rest)
  {
    var (count, s1) := UInt(s, 2).value;
    UIntIff(s, 2, count, s1);
    AuthsSound(s1, count, l, g);
  }

  lemma AuthSectionComplete(auths: seq<Auth>, rest: seq<byte>, l: Policy, g: Guards)
    requires |auths| <= AuthLimit(l) && forall a | a in auths :: WellFormedAuth(a, l)
    ensures AuthSection(LeBytes(|auths|, 2) + (EncodeAll(EncodeAuth, auths) + rest), l, g) == Ok((auths, rest))
  {
    PowersOf256();
    var s1 := EncodeAll(EncodeAuth, auths) + rest;
    UIntIff(LeBytes(|auths|, 2) + s1, 2, |auths|, s1);
    AuthsComplete(auths, rest, l, g);
    AuthsSize(auths);
  }

  function Nested(e: Envelope, rest: seq<byte>): seq<byte> {
    MAGIC + (EncodeHead(e.head) + (EncodeCore(e.core) + (EncodeBlob(e.proof) + (e.ext
    + (LeBytes(|e.auth|, 2) + (EncodeAll(EncodeAuth, e.auth) + rest))))))
  }

  lemma NestedIsEncode(e: Envelope, rest: seq<byte>)
    ensures Nested(e, rest) == Encode(e) + rest
  {
  }

  lemma EnvelopeSound(s: seq<byte>, l: Policy, g: Guards)
    requires ParseEnvelope(s, l, g).Ok?
    ensures var (e, rest) := ParseEnvelope(s, l, g).value; WellFormed(e, l) && s == Encode(e) + rest
  {
    var (e, rest) := ParseEnvelope(s, l, g).value;
    var s1 := s[8..];
    var s2 := ParseHead(s1).value.1;
    var s3 := ParseCore(s2).value.1;
    var s4 := Blob(s3, ProofLimit(l), g).value.1;
    var s5 := s4[32..];
    TakeIff(s, 8, MAGIC, s1);
    HeadSound(s1);
    CoreSound(s2);
    BlobIff(s3, ProofLimit(l), g, e.proof, s4);
    TakeIff(s4, 32, e.ext, s5);
    AuthSectionSound(s5, l, g);
    assert s == Nested(e, rest);
    NestedIsEncode(e, rest);
  }

  lemma EnvelopeComplete(e: Envelope, rest: seq<byte>, l: Policy, g: Guards)
    requires WellFormed(e, l)
    ensures ParseEnvelope(Encode(e) + rest, l, g) == Ok((e, rest))
  {
    NestedIsEncode(e, rest);
    var s5 := LeBytes(|e.auth|, 2) + (EncodeAll(EncodeAuth, e.auth) + rest);
    var s4 := e.ext + s5;
    var s3 := EncodeBlob(e.proof) + s4;
    var s2 := EncodeCore(e.core) + s3;
    var s1 := EncodeHead(e.head) + s2;
    TakeIff(MAGIC + s1, 8, MAGIC, s1);
    HeadComplete(e.head, s2);
    CoreComplete(e.core, s3);
    BlobIff(s3, ProofLimit(l), g, e.proof, s4);
    TakeIff(s4, 32, e.ext, s5);
    AuthSectionComplete(e.auth, rest, l, g);
  }

  lemma {:induction false} AllSize<T>(enc: T -> seq<byte>, vs: seq<T>, n: nat)
    requires forall v | v in vs :: |enc(v)| <= n
    ensures |EncodeAll(enc, vs)| <= |vs| * n
    ensures (forall v | v in vs :: |enc(v)| == n) ==> |EncodeAll(enc, vs)| == |vs| * n
  {
    if vs != [] {
      AllSize(enc, vs[1..], n);
      MulStep(|vs[1..]|, n);
      assert |enc(vs[0])| <= n;
    }
  }

  lemma MulStep(k: nat, n: nat)
    ensures (k + 1) * n == k * n + n
  {
  }

  /** The size of the largest well-formed envelope. */
  function MaxSize(l: Policy): nat {
    387 + ProofLimit(l) + AuthLimit(l) * (MIN_AUTH_BYTES + SigLimit(l))
  }

  lemma FrameFits(e: Envelope, l: Policy)
    requires WellFormed(e, l)
    ensures 0 < |Encode(e)| <= MaxSize(l)
  {
    AllSize(EncodeText, e.head.parts, MAX_TEXT + 1);
    AllSize(EncodeAuth, e.auth, MIN_AUTH_BYTES + SigLimit(l));
    MulMonotone(|e.auth|, AuthLimit(l), MIN_AUTH_BYTES + SigLimit(l));
  }

  lemma MulMonotone(a: nat, b: nat, c: nat)
    requires a <= b
    ensures a * c <= b * c
  {
  }

  /** An envelope with every variable field as long as it may be. */
  function Largest(l: Policy): Envelope {
    Envelope(Head(0, [Zeros(MAX_TEXT), Zeros(MAX_TEXT), Zeros(MAX_TEXT)], 1, 1),
             Core(Zeros(32), Zeros(32), 0, Zeros(32), Zeros(32)),
             Zeros(ProofLimit(l)), Zeros(32), seq(AuthLimit(l), _ => Auth(1, Zeros(32), Zeros(SigLimit(l)))))
  }

  lemma {:induction false} ZerosAreText(n: nat)
    ensures Utf8.Valid(Zeros(n))
  {
    if n > 0 {
      ZerosAreText(n - 1);
      assert Zeros(n)[1..] == Zeros(n - 1);
    }
  }

  lemma LargestIsWellFormed(l: Policy)
    ensures WellFormed(Largest(l), l)
  {
    ZerosAreText(MAX_TEXT);
  }

  lemma LargestSize(l: Policy)
    ensures WellFormed(Largest(l), l) && |Encode(Largest(l))| == MaxSize(l)
  {
    var e := Largest(l);
    LargestIsWellFormed(l);
    AllSize(EncodeText, e.head.parts, MAX_TEXT + 1);
    AllSize(EncodeAuth, e.auth, MIN_AUTH_BYTES + SigLimit(l));
  }

  // Main results.

  /** Whatever guards are in force, the decoder accepts exactly the encodings of well-formed
      envelopes, up to the frame limit if that is checked, and returns the envelope encoded. */
  lemma DecodeIff(b: seq<byte>, l: Policy, g: Guards, e: Envelope)
    ensures Decode(b, l, g) == Ok(e) <==> WellFormed(e, l) && b == Encode(e) && (g.frame ==> |b| <= l.maxFrame)
  {
    if Decode(b, l, g) == Ok(e) {
      EnvelopeSound(b, l, g);
    }
    if WellFormed(e, l) && b == Encode(e) {
      assert Encode(e) + [] == b;
      EnvelopeComplete(e, [], l, g);
      FrameFits(e, l);
    }
  }

  /** The format is self-delimiting: of two accepted frames, neither is a strict prefix of the other. */
  lemma SelfDelimiting(b: seq<byte>, more: seq<byte>, l: Policy, g: Guards, g': Guards)
    requires Decode(b, l, g).Ok? && more != []
    ensures Decode(b + more, l, g').Err?
  {
    var e := Decode(b, l, g).value;
    DecodeIff(b, l, g, e);
    EnvelopeComplete(e, more, l, g');
  }

  /** The checks made ahead of a field change the reason a frame is refused. They never change
      the verdict or the value, except that the frame check refuses frames over its limit, if
      the other limits allow any. */
  lemma GuardsNeverDecide(b: seq<byte>, l: Policy, g: Guards, g': Guards)
    requires |b| <= l.maxFrame || MaxSize(l) <= l.maxFrame || g.frame == g'.frame
    ensures Decode(b, l, g).Ok? <==> Decode(b, l, g').Ok?
    ensures Decode(b, l, g).Ok? ==> Decode(b, l, g) == Decode(b, l, g')
  {
    if Decode(b, l, g).Ok? {
      DecodeIff(b, l, g, Decode(b, l, g).value);
      FrameFits(Decode(b, l, g).value, l);
      DecodeIff(b, l, g', Decode(b, l, g).value);
    }
    if Decode(b, l, g').Ok? {
      DecodeIff(b, l, g', Decode(b, l, g').value);
      FrameFits(Decode(b, l, g').value, l);
      DecodeIff(b, l, g, Decode(b, l, g').value);
    }
  }

  /** The frame check changes no verdict, on any frame. */
  ghost predicate FrameCheckIsIdle(l: Policy, g: Guards) {
    forall b :: Decode(b, l, g.(frame := true)) == Decode(b, l, g.(frame := false))
                || (Decode(b, l, g.(frame := true)).Err? && Decode(b, l, g.(frame := false)).Err?)
  }

  /** It is idle exactly when the largest envelope the other limits allow fits the frame limit. */
  lemma FrameCheckIsIdleIff(l: Policy, g: Guards)
    ensures FrameCheckIsIdle(l, g) <==> MaxSize(l) <= l.maxFrame
  {
    var on, off := g.(frame := true), g.(frame := false);
    var e := Largest(l);
    LargestSize(l);
    DecodeIff(Encode(e), l, on, e);
    DecodeIff(Encode(e), l, off, e);
    if MaxSize(l) > l.maxFrame {
      var b := Encode(e);
      assert Decode(b, l, off) == Ok(e) && Decode(b, l, on) != Ok(e);
      assert !(Decode(b, l, on) == Decode(b, l, off) || (Decode(b, l, on).Err? && Decode(b, l, off).Err?));
    } else {
      forall b ensures Decode(b, l, on) == Decode(b, l, off) || (Decode(b, l, on).Err? && Decode(b, l, off).Err?) {
        GuardsNeverDecide(b, l, on, off);
      }
    }
  }

  /** So it is idle with the reference limits, and not with those the fuzz target sets. */
  lemma LimitsInUse()
    ensures MaxSize(REFERENCE) == 590_363 <= REFERENCE.maxFrame
    ensures MaxSize(FUZZED) == 164_531 > FUZZED.maxFrame
  {
  }
}
