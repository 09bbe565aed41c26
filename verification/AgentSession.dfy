/** Agent sessions: minted for the pairing token or for a live session, verified
    from their MAC alone, and bounded in time. */
module AgentSession {
  import opened Bytes

  const U64_LIMIT := 0x1_0000_0000_0000_0000

  type Time = t: nat | t < U64_LIMIT

  /** The 128 random bits that name a session. */
  type SessionId = s: seq<byte> | |s| == 16 witness Zeros(16)

  /** The MAC under the key derived from the pairing token. */
  type MacFn = seq<byte> -> Bytes32

  datatype Token = Token(sessionId: SessionId, issuedAt: Time, expiresAt: Time, mac: Bytes32)

  /** A presented header that had the right shape; the byte fields may have any length. */
  datatype Header = Header(sessionId: seq<byte>, issuedAt: Time, expiresAt: Time, mac: seq<byte>)

  function MacMessage(id: SessionId, issuedAt: Time, expiresAt: Time): seq<byte> {
    Ascii("xenia-operator-agent-session-mac-v1") + id + LeBytes(issuedAt, 8) + LeBytes(expiresAt, 8)
  }

  function SaturatingAdd(a: Time, b: Time): Time {
    if a + b < U64_LIMIT then a + b else U64_LIMIT - 1
  }

  function Mint(mac: MacFn, id: SessionId, now: Time, ttl: Time): Token {
    var expiresAt := SaturatingAdd(now, ttl);
    Token(id, now, expiresAt, mac(MacMessage(id, now, expiresAt)))
  }

  datatype Verdict = Malformed | BadMac | Expired | Accepted(token: Token)

  predicate RightLengths(h: Header) {
    |h.sessionId| == 16 && |h.mac| == 32
  }

  predicate MacMatches(mac: MacFn, h: Header) {
    RightLengths(h) && h.mac == mac(MacMessage(h.sessionId, h.issuedAt, h.expiresAt))
  }

  /** The MAC is checked before the expiry. */
  function Verify(mac: MacFn, now: Time, presented: Option<Header>): Verdict {
    match presented
    case None => Malformed
    case Some(h) =>
      if !RightLengths(h) then Malformed
      else if !MacMatches(mac, h) then BadMac
      else if now > h.expiresAt then Expired
      else Accepted(Token(h.sessionId, h.issuedAt, h.expiresAt, h.mac))
  }

  function Presented(t: Token): Header {
    Header(t.sessionId, t.issuedAt, t.expiresAt, t.mac)
  }

  /** A session minted at `minted` carries that time, is accepted as itself while the clock is at
      most `minted + ttl`, or at its highest value, and is expired after. */
  lemma MintedUntil(mac: MacFn, id: SessionId, minted: Time, ttl: Time, now: Time)
    ensures var t := Mint(mac, id, minted, ttl);
            && t.sessionId == id && t.issuedAt == minted
            && Verify(mac, now, Some(Presented(t))) == if now <= minted + ttl then Accepted(t) else Expired
  {
  }

  /** What is refused, and as what: shape first, then the MAC, then the time. */
  lemma VerdictIff(mac: MacFn, now: Time, presented: Option<Header>)
    ensures var v := Verify(mac, now, presented);
            && (v == Malformed <==> presented.None? || |presented.value.sessionId| != 16 || |presented.value.mac| != 32)
            && (v == BadMac ==> presented.value.mac != mac(MacMessage(presented.value.sessionId, presented.value.issuedAt, presented.value.expiresAt)))
            && (v == Expired ==> now > presented.value.expiresAt)
            && (v.Accepted? ==> Presented(v.token) == presented.value && now <= presented.value.expiresAt
                                && presented.value.mac == mac(MacMessage(v.token.sessionId, v.token.issuedAt, v.token.expiresAt)))
  {
  }

  /** The MAC covers the domain tag, the id, and both times in little-endian order. */
  lemma MacMessageLayout(id: SessionId, i: Time, e: Time)
    ensures var m := MacMessage(id, i, e);
            && |m| == 67 && m[..35] == Ascii("xenia-operator-agent-session-mac-v1") && m[35..51] == id
            && U64At(m, 51) == i && U64At(m, 59) == e
  {
    PowersOf256();
    LeEight(i);
    LeEight(e);
    var m, tag := MacMessage(id, i, e), Ascii("xenia-operator-agent-session-mac-v1");
    assert m[51..59] == LeBytes(i, 8) && m[59..67] == LeBytes(e, 8);
  }

  /** Comparing without an early exit still decides equality. */
  method ConstantTimeEq(a: seq<bv8>, b: seq<bv8>) returns (same: bool)
    ensures same <==> a == b
  {
    if |a| != |b| {
      return false;
    }
    var diff: bv8 := 0;
    for i := 0 to |a|
      invariant diff == 0 <==> a[..i] == b[..i]
    {
      OrXorIsZero(diff, a[i], b[i]);
      assert a[..i + 1] == a[..i] + [a[i]] && b[..i + 1] == b[..i] + [b[i]];
      diff := diff | (a[i] ^ b[i]);
    }
    assert a[..|a|] == a && b[..|b|] == b;
    same := diff == 0;
  }

  lemma OrXorIsZero(d: bv8, x: bv8, y: bv8)
    ensures d | (x ^ y) == 0 <==> d == 0 && x == y
  {
  }

  lemma MacMessageInjective(id: SessionId, i: Time, e: Time, id': SessionId, i': Time, e': Time)
    requires MacMessage(id, i, e) == MacMessage(id', i', e')
    ensures id == id' && i == i' && e == e'
  {
    PowersOf256();
    var tag := Ascii("xenia-operator-agent-session-mac-v1");
    ThreeFields(tag, id, LeBytes(i, 8), LeBytes(e, 8), id', LeBytes(i', 8), LeBytes(e', 8));
    LeInjective(i, i', 8);
    LeInjective(e, e', 8);
  }

  lemma ThreeFields(tag: seq<byte>, a: seq<byte>, b: seq<byte>, c: seq<byte>, a': seq<byte>, b': seq<byte>, c': seq<byte>)
    requires |a| == |a'| && |b| == |b'| && tag + a + b + c == tag + a' + b' + c'
    ensures a == a' && b == b' && c == c'
  {
    assert tag + a + b + c == tag + (a + (b + c)) && tag + a' + b' + c' == tag + (a' + (b' + c'));
    Split(tag, a + (b + c), tag, a' + (b' + c'));
    Split(a, b + c, a', b' + c');
    Split(b, c, b', c');
  }

  // Runs. The agent keeps no session table, so a run is just its calls.

  /** The agent's secrets and settings. */
  datatype Config = Config(mac: MacFn, pairingToken: seq<byte>, ttl: Time)

  /** `mintTime` is read again after the credential was checked at `now`. */
  datatype Call =
    | Pair(token: seq<byte>, id: SessionId, mintTime: Time, recorded: bool)
    | Refresh(header: Option<Header>, now: Time, id: SessionId, mintTime: Time, recorded: bool)
    | Other(header: Option<Header>, now: Time)

  function VerdictOf(c: Config, call: Call): Verdict
    requires !call.Pair?
  {
    Verify(c.mac, call.now, call.header)
  }

  /** The session a call hands out: only with a good credential, and only once recorded. */
  function ReleasedBy(c: Config, call: Call): Option<Token> {
    match call
    case Pair(token, id, mintTime, recorded) =>
      if token == c.pairingToken && recorded then Some(Mint(c.mac, id, mintTime, c.ttl)) else None
    case Refresh(_, _, id, mintTime, recorded) =>
      if VerdictOf(c, call).Accepted? && recorded then Some(Mint(c.mac, id, mintTime, c.ttl)) else None
    case Other(_, _) => None
  }

  /** Unforgeability: whoever presents a matching MAC has been handed one for that message before. */
  predicate Unforged(c: Config, calls: seq<Call>) {
    forall i | 0 <= i < |calls| && !calls[i].Pair? && calls[i].header.Some? && MacMatches(c.mac, calls[i].header.value) ::
      exists j: nat | j < i :: Hands(c, calls[j], calls[i].header.value)
  }

  /** The call released a session with the MAC message of this header. */
  predicate Hands(c: Config, call: Call, h: Header)
    requires RightLengths(h)
  {
    var t := ReleasedBy(c, call);
    t.Some? && MacMessage(t.value.sessionId, t.value.issuedAt, t.value.expiresAt) == MacMessage(h.sessionId, h.issuedAt, h.expiresAt)
  }

  /** Call `i` presented exactly the session that call `j` released, no later than it expires. */
  predicate Uses(c: Config, calls: seq<Call>, i: nat, j: nat)
    requires i < |calls| && j < |calls|
  {
    && j < i && !calls[i].Pair?
    && VerdictOf(c, calls[i]).Accepted?
    && ReleasedBy(c, calls[j]) == Some(VerdictOf(c, calls[i]).token)
    && calls[i].now <= VerdictOf(c, calls[i]).token.expiresAt
  }

  /** `path` leads from a pairing with the right token, refresh by refresh, to the
      session that call `i` used. */
  predicate Descends(c: Config, calls: seq<Call>, i: nat, path: seq<nat>)
    requires i < |calls|
  {
    && path != []
    && var j := path[|path| - 1];
       && j < |calls| && Uses(c, calls, i, j) && calls[j].recorded
       && if |path| == 1 then calls[j].Pair? && calls[j].token == c.pairingToken
          else calls[j].Refresh? && Descends(c, calls, j, path[..|path| - 1])
  }

  lemma ParentOf(c: Config, calls: seq<Call>, i: nat) returns (j: nat)
    requires Unforged(c, calls) && i < |calls| && !calls[i].Pair? && VerdictOf(c, calls[i]).Accepted?
    ensures j < i && Uses(c, calls, i, j)
  {
    var h := calls[i].header.value;
    j :| j < i && Hands(c, calls[j], h);
    var t := ReleasedBy(c, calls[j]).value;
    MacMessageInjective(t.sessionId, t.issuedAt, t.expiresAt, h.sessionId, h.issuedAt, h.expiresAt);
  }

  /** Every accepted session descends through recorded refreshes, each made before its
      parent expired, from a pairing with the right token. */
  lemma {:induction false} AcceptedSessionsDescendFromPairing(c: Config, calls: seq<Call>, i: nat) returns (path: seq<nat>)
    requires Unforged(c, calls) && i < |calls| && !calls[i].Pair? && VerdictOf(c, calls[i]).Accepted?
    ensures Descends(c, calls, i, path)
  {
    var j := ParentOf(c, calls, i);
    if calls[j].Pair? {
      path := [j];
    } else {
      var before := AcceptedSessionsDescendFromPairing(c, calls, j);
      path := before + [j];
      assert path[..|path| - 1] == before;
    }
  }

  /** Once the clock is past every mint time plus the ttl, no session is accepted. */
  lemma SessionsRunOut(c: Config, calls: seq<Call>, i: nat)
    requires Unforged(c, calls) && i < |calls| && !calls[i].Pair?
    requires forall j | 0 <= j < i && ReleasedBy(c, calls[j]).Some? :: calls[i].now > calls[j].mintTime + c.ttl
    ensures !VerdictOf(c, calls[i]).Accepted?
  {
    if VerdictOf(c, calls[i]).Accepted? {
      var j := ParentOf(c, calls, i);
    }
  }

  /** A call hands out a session exactly when its credential is good and its event recorded; and
      whoever presents that session while it lasts is let in. */
  lemma ReleasedSessionsWork(c: Config, call: Call, later: Call)
    ensures call.Pair? ==> (ReleasedBy(c, call).Some? <==> call.token == c.pairingToken && call.recorded)
    ensures call.Refresh? ==> (ReleasedBy(c, call).Some? <==> VerdictOf(c, call).Accepted? && call.recorded)
    ensures call.Other? ==> ReleasedBy(c, call).None?
    ensures var t := ReleasedBy(c, call);
            t.Some? ==>
              && t.value.sessionId == call.id && t.value.issuedAt == call.mintTime
              && (!later.Pair? && later.header == Some(Presented(t.value)) && later.now <= call.mintTime + c.ttl ==>
                    VerdictOf(c, later) == Accepted(t.value))
  {
    if ReleasedBy(c, call).Some? && !later.Pair? {
      MintedUntil(c.mac, call.id, call.mintTime, c.ttl, later.now);
    }
  }
}
