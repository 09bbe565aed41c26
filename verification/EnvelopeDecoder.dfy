/** The decoder as it runs: a cursor advanced in place, and loops that collect
    the text parts and the authentication records. */
module EnvelopeDecoder {
  import opened Bytes
  import opened EnvelopeCodec
  import Utf8

  /** `p` parses one authentication record. */
  ghost predicate ParsesAuth(p: seq<byte> -> Parsed<Auth>, l: Policy) {
    forall s {:trigger ParseAuth(s, l, ALL_GUARDS)} :: p(s) == ParseAuth(s, l, ALL_GUARDS)
  }

  class Cursor {
    const frame: seq<byte>
    var i: nat

    ghost predicate Valid()
      reads this
    {
      i <= |frame|
    }

    /** What has not been read yet. */
    ghost function Rest(): (s: seq<byte>)
      requires Valid()
      reads this
    {
      frame[i..]
    }

    /** The cursor ends where the parser step `p` leaves the input, with the value it returns. */
    ghost predicate Follows<T>(p: Parsed<T>, r: Result<T>)
      reads this
    {
      && Valid()
      && match p {
           case Ok((v, rest)) => r == Ok(v) && Rest() == rest
           case Err(reject) => r == Err(reject)
         }
    }

    constructor (b: seq<byte>)
      ensures Valid() && frame == b && Rest() == b
    {
      frame := b;
      i := 0;
    }

    method Remaining() returns (n: nat)
      requires Valid()
      ensures n == |Rest()|
    {
      n := |frame| - i;
    }

    method Take(n: nat) returns (r: Result<seq<byte>>)
      requires Valid()
      modifies this
      ensures Follows(EnvelopeCodec.Take(old(Rest()), n), r)
    {
      if i + n > |frame| {
        return Err(Truncated);
      }
      r := Ok(frame[i..i + n]);
      i := i + n;
      assert old(Rest())[..n] == frame[old(i)..i];
    }

    method UInt(n: nat) returns (r: Result<nat>)
      requires Valid()
      modifies this
      ensures Follows(EnvelopeCodec.UInt(old(Rest()), n), r)
    {
      var v :- Take(n);
      r := Ok(LeValue(v));
    }

    method Text() returns (r: Result<seq<byte>>)
      requires Valid()
      modifies this
      ensures Follows(EnvelopeCodec.Text(old(Rest())), r)
    {
      var n :- UInt(1);
      if n > MAX_TEXT {
        return Err(TextLimit);
      }
      var raw :- Take(n);
      if !Utf8.Valid(raw) {
        return Err(NotUtf8);
      }
      r := Ok(raw);
    }

    method Blob(limit: nat) returns (r: Result<seq<byte>>)
      requires Valid()
      modifies this
      ensures Follows(EnvelopeCodec.Blob(old(Rest()), limit, ALL_GUARDS), r)
    {
      var n :- UInt(4);
      if n > limit {
        return Err(Limit);
      }
      var rem := Remaining();
      if n > rem {
        return Err(BeyondFrame);
      }
      r := Take(n);
    }

    method Texts(n: nat) returns (r: Result<seq<seq<byte>>>)
      requires Valid()
      modifies this
      ensures Follows(Repeat(EnvelopeCodec.Text, old(Rest()), n, []), r)
    {
      var parts := [];
      for k := 0 to n
        invariant Valid()
        invariant Repeat(EnvelopeCodec.Text, old(Rest()), n, []) == Repeat(EnvelopeCodec.Text, Rest(), n - k, parts)
      {
        var raw :- Text();
        parts := parts + [raw];
      }
      r := Ok(parts);
    }

    method Head() returns (r: Result<Head>)
      requires Valid()
      modifies this
      ensures Follows(ParseHead(old(Rest())), r)
    {
      var version :- UInt(4);
      var parts :- Texts(3);
      var statementVersion :- UInt(4);
      var proofSystem :- UInt(2);
      if statementVersion == 0 || proofSystem == 0 {
        return Err(Reserved);
      }
      r := Ok(EnvelopeCodec.Head(version, parts, statementVersion, proofSystem));
    }

    method Core() returns (r: Result<Core>)
      requires Valid()
      modifies this
      ensures Follows(ParseCore(old(Rest())), r)
    {
      var verifier :- Take(32);
      var params :- Take(32);
      var timestamp :- UInt(8);
      var nonce :- Take(32);
      var inputs :- Take(32);
      r := Ok(EnvelopeCodec.Core(verifier, params, timestamp, nonce, inputs));
    }

    method Auth(l: Policy) returns (r: Result<Auth>)
      requires Valid()
      modifies this
      ensures Follows(ParseAuth(old(Rest()), l, ALL_GUARDS), r)
    {
      var suite :- UInt(2);
      if suite == 0 {
        return Err(BadSuite);
      }
      var key :- Take(32);
      var sig :- Blob(SigLimit(l));
      r := Ok(EnvelopeCodec.Auth(suite, key, sig));
    }

    method NextAuth(l: Policy, ghost p: seq<byte> -> Parsed<Auth>) returns (r: Result<Auth>)
      requires Valid() && ParsesAuth(p, l)
      modifies this
      ensures Follows(p(old(Rest())), r)
    {
      r := Auth(l);
    }

    method AuthList(n: nat, l: Policy, ghost p: seq<byte> -> Parsed<Auth>) returns (r: Result<seq<Auth>>)
      requires Valid() && ParsesAuth(p, l)
      modifies this
      ensures Follows(Repeat(p, old(Rest()), n, []), r)
    {
      var auth := [];
      for k := 0 to n
        invariant Valid()
        invariant Repeat(p, old(Rest()), n, []) == Repeat(p, Rest(), n - k, auth)
      {
        var a :- NextAuth(l, p);
        auth := auth + [a];
      }
      r := Ok(auth);
    }

    method Auths(l: Policy) returns (r: Result<seq<Auth>>)
      requires Valid()
      modifies this
      ensures Follows(AuthSection(old(Rest()), l, ALL_GUARDS), r)
    {
      var count :- UInt(2);
      if count > AuthLimit(l) {
        return Err(AuthCount);
      }
      var rem := Remaining();
      if count * MIN_AUTH_BYTES > rem {
        return Err(AuthMinFrame);
      }
      r := AuthList(count, l, AuthParser(l, ALL_GUARDS));
    }
  }

  /** Decoding a frame succeeds exactly on the encoding of a well-formed envelope within the frame limit. */
  method DecodeFrame(b: seq<byte>, l: Policy) returns (r: Result<Envelope>)
    ensures r == Decode(b, l, ALL_GUARDS)
    ensures forall e :: r == Ok(e) <==> WellFormed(e, l) && b == Encode(e) && |b| <= l.maxFrame
  {
    forall e ensures Decode(b, l, ALL_GUARDS) == Ok(e) <==> WellFormed(e, l) && b == Encode(e) && |b| <= l.maxFrame {
      DecodeIff(b, l, ALL_GUARDS, e);
    }
    if |b| == 0 || |b| > l.maxFrame {
      return Err(BadFrame);
    }
    var c := new Cursor(b);
    var magic :- c.Take(8);
    if magic != MAGIC {
      return Err(BadMagic);
    }
    var head :- c.Head();
    var core :- c.Core();
    var proof :- c.Blob(ProofLimit(l));
    var ext :- c.Take(32);
    var auth :- c.Auths(l);
    var rem := c.Remaining();
    if rem != 0 {
      return Err(Trailing);
    }
    r := Ok(Envelope(head, core, proof, ext, auth));
  }

  method AppendTexts(b: seq<byte>, parts: seq<seq<byte>>) returns (r: seq<byte>)
    ensures r == b + EncodeAll(EncodeText, parts)
  {
    r := b;
    for k := 0 to |parts|
      invariant r == b + EncodeAll(EncodeText, parts[..k])
    {
      EncodeAllSnoc(EncodeText, parts[..k], parts[k]);
      assert parts[..k + 1] == parts[..k] + [parts[k]];
      r := r + (LeBytes(|parts[k]|, 1) + parts[k]);
    }
    assert parts[..|parts|] == parts;
  }

  method AppendAuths(b: seq<byte>, auths: seq<Auth>) returns (r: seq<byte>)
    ensures r == b + EncodeAll(EncodeAuth, auths)
  {
    r := b;
    for k := 0 to |auths|
      invariant r == b + EncodeAll(EncodeAuth, auths[..k])
    {
      var a := auths[k];
      EncodeAllSnoc(EncodeAuth, auths[..k], a);
      assert auths[..k + 1] == auths[..k] + [a];
      var record := LeBytes(a.suite, 2) + a.key + (LeBytes(|a.sig|, 4) + a.sig);
      assert record == EncodeAuth(a);
      r := r + record;
    }
    assert auths[..|auths|] == auths;
  }

  // What the field types of an envelope guarantee by themselves.

  predicate HeadTyped(h: Head) {
    && h.version < 0x1_0000_0000 && h.statementVersion < 0x1_0000_0000 && 0 < h.proofSystem < 0x1_0000
    && |h.parts| == 3 && forall t | t in h.parts :: Utf8.Valid(t)
  }

  predicate AuthTyped(a: Auth) {
    0 < a.suite < 0x1_0000 && |a.key| == 32
  }

  predicate FieldsTyped(e: Envelope) {
    HeadTyped(e.head) && WellFormedCore(e.core) && |e.ext| == 32 && forall a | a in e.auth :: AuthTyped(a)
  }

  /** The encoder as it runs, growing one buffer and refusing what the decoder would refuse. It
      succeeds exactly on envelopes that some frame decodes to, and writes that frame. */
  method EncodeFrame(e: Envelope, l: Policy) returns (r: Result<seq<byte>>)
    requires FieldsTyped(e)
    ensures r.Ok? ==> Decode(r.value, l, ALL_GUARDS) == Ok(e)
    ensures r.Err? ==> forall b :: Decode(b, l, ALL_GUARDS) != Ok(e)
  {
    forall b ensures Decode(b, l, ALL_GUARDS) == Ok(e) <==> WellFormed(e, l) && b == Encode(e) && |b| <= l.maxFrame {
      DecodeIff(b, l, ALL_GUARDS, e);
    }
    var headOk := StatementOk(e.head);
    if !headOk {
      return Err(Reserved);
    }
    if |e.proof| > ProofLimit(l) {
      return Err(Limit);
    }
    if |e.auth| > AuthLimit(l) {
      return Err(AuthCount);
    }
    var sigsOk := SignaturesFit(e.auth, l);
    if !sigsOk {
      return Err(Limit);
    }
    var b := Buffer(e);
    if |b| > l.maxFrame {
      return Err(BadFrame);
    }
    r := Ok(b);
  }

  method StatementOk(h: Head) returns (ok: bool)
    requires HeadTyped(h)
    ensures ok <==> WellFormedHead(h)
  {
    if h.statementVersion == 0 {
      return false;
    }
    for i := 0 to 3
      invariant forall t | t in h.parts[..i] :: WellFormedText(t)
    {
      if |h.parts[i]| > MAX_TEXT {
        assert !WellFormedText(h.parts[i]);
        return false;
      }
    }
    assert h.parts[..3] == h.parts;
    ok := true;
  }

  method SignaturesFit(auths: seq<Auth>, l: Policy) returns (ok: bool)
    requires forall a | a in auths :: AuthTyped(a)
    ensures ok <==> forall a | a in auths :: WellFormedAuth(a, l)
  {
    for i := 0 to |auths|
      invariant forall a | a in auths[..i] :: WellFormedAuth(a, l)
    {
      if |auths[i].sig| > SigLimit(l) {
        assert !WellFormedAuth(auths[i], l);
        return false;
      }
    }
    assert auths[..|auths|] == auths;
    ok := true;
  }

  method Buffer(e: Envelope) returns (b: seq<byte>)
    ensures b == Encode(e)
  {
    var h, c := e.head, e.core;
    b := AppendTexts(MAGIC + LeBytes(h.version, 4), h.parts);
    b := b + LeBytes(h.statementVersion, 4) + LeBytes(h.proofSystem, 2);
    assert b == MAGIC + EncodeHead(h);
    b := b + (c.verifier + c.params + LeBytes(c.timestamp, 8) + c.nonce + c.inputs);
    b := b + (LeBytes(|e.proof|, 4) + e.proof) + e.ext + LeBytes(|e.auth|, 2);
    b := AppendAuths(b, e.auth);
  }

  lemma {:induction false} EncodeAllSnoc<T>(enc: T -> seq<byte>, vs: seq<T>, v: T)
    ensures EncodeAll(enc, vs + [v]) == EncodeAll(enc, vs) + enc(v)
  {
    if vs == [] {
      assert EncodeAll(enc, [v]) == enc(v) + [];
    } else {
      EncodeAllSnoc(enc, vs[1..], v);
      assert (vs + [v])[1..] == vs[1..] + [v];
    }
  }
}
