/** What an answer from the operator agent means: which requests are refused and why, and what a
    released answer implies about the operator's confirmation, the host's pin and the audit log,
    request by request. */
module AgentAnswers {
  import opened Bytes
  import opened HostTrust
  import opened Agent
  import Log = AuditLog
  import Runs

  // Endpoints.

  /** The white space of the Unicode standard. */
  lemma SpaceIff(c: char)
    ensures IsSpace(c) <==> c in {'\t', '\n', '\U{0B}', '\U{0C}', '\r', ' ', '\U{85}', '\U{A0}', '\U{1680}', '\U{2000}', '\U{2001}',
                                  '\U{2002}', '\U{2003}', '\U{2004}', '\U{2005}', '\U{2006}', '\U{2007}', '\U{2008}', '\U{2009}',
                                  '\U{200A}', '\U{2028}', '\U{2029}', '\U{202F}', '\U{205F}', '\U{3000}'}
  {
  }

  predicate AllOf(space: char -> bool, s: string) {
    forall i | 0 <= i < |s| :: space(s[i])
  }

  predicate AllSpace(s: string) {
    AllOf(IsSpace, s)
  }

  /** `s` is `t` with white space around it. */
  predicate Around(space: char -> bool, s: string, t: string, before: string, after: string) {
    s == before + t + after && AllOf(space, before) && AllOf(space, after)
  }

  lemma AroundFront(space: char -> bool, c: char, s: string, t: string, before: string, after: string)
    requires Around(space, s, t, before, after) && space(c)
    ensures Around(space, [c] + s, t, [c] + before, after)
  {
    assert [c] + before + t + after == [c] + (before + t + after);
  }

  lemma AroundBack(space: char -> bool, c: char, s: string, t: string, before: string, after: string)
    requires Around(space, s, t, before, after) && space(c)
    ensures Around(space, s + [c], t, before, after + [c])
  {
    assert before + t + (after + [c]) == before + t + after + [c];
  }

  lemma {:induction false} TrimByIs(space: char -> bool, s: string) returns (before: string, after: string)
    ensures Around(space, s, TrimBy(space, s), before, after)
    decreases |s|
  {
    if s == "" {
      before, after := "", "";
    } else if space(s[0]) {
      var b, a := TrimByIs(space, s[1..]);
      before, after := [s[0]] + b, a;
      AroundFront(space, s[0], s[1..], TrimBy(space, s[1..]), b, a);
      assert [s[0]] + s[1..] == s;
    } else if space(s[|s| - 1]) {
      var n := |s| - 1;
      var b, a := TrimByIs(space, s[..n]);
      before, after := b, a + [s[n]];
      AroundBack(space, s[n], s[..n], TrimBy(space, s[..n]), b, a);
      assert s[..n] + [s[n]] == s;
    } else {
      before, after := "", "";
      assert "" + s + "" == s;
    }
  }

  lemma {:induction false} TrimByEnds(space: char -> bool, s: string)
    ensures var t := TrimBy(space, s); t != "" ==> !space(t[0]) && !space(t[|t| - 1])
    decreases |s|
  {
    if s != "" {
      if space(s[0]) {
        TrimByEnds(space, s[1..]);
      } else if space(s[|s| - 1]) {
        TrimByEnds(space, s[..|s| - 1]);
      }
    }
  }

  /** Trimming removes the white space around what is left, and only that. */
  lemma TrimIs(s: string) returns (before: string, after: string)
    ensures s == before + Trim(s) + after && AllSpace(before) && AllSpace(after)
    ensures Trim(s) != "" ==> !IsSpace(Trim(s)[0]) && !IsSpace(Trim(s)[|Trim(s)| - 1])
  {
    before, after := TrimByIs(IsSpace, s);
    TrimByEnds(IsSpace, s);
  }

  lemma TrimmedAwayBy(space: char -> bool, s: string)
    ensures TrimBy(space, s) == "" <==> AllOf(space, s)
  {
    var before, after := TrimByIs(space, s);
    TrimByEnds(space, s);
    assert TrimBy(space, s) != "" ==> s[|before|] == TrimBy(space, s)[0];
  }

  lemma TrimmedAway(s: string)
    ensures Trim(s) == "" <==> AllSpace(s)
  {
    TrimmedAwayBy(IsSpace, s);
  }

  /** A normalized endpoint is the trimmed text with `A` to `Z` in lower case and the rest as it was. */
  lemma NormalizedIs(raw: string)
    ensures var t, n := Trim(raw), NormalizeEndpoint(raw);
            && |n| == |t|
            && forall i | 0 <= i < |n| :: n[i] as int == if 'A' <= t[i] <= 'Z' then t[i] as int + 32 else t[i] as int
  {
  }

  // Scopes.

  /** The seven phrases that make a grant broad. */
  const BROAD_PHRASES: seq<string> := [
    "input: viewer may inject",
    "clipboard: host-to-viewer disclosure", "clipboard: viewer-to-host apply", "clipboard: bidirectional",
    "file-transfer: host-to-viewer send", "file-transfer: viewer-to-host receive", "file-transfer: bidirectional"]

  predicate IsBroadPhrase(phrase: string) {
    phrase in BROAD_PHRASES
  }

  /** An occurrence of one of the phrases makes the grant broad. */
  lemma BroadIfPhrase(before: string, phrase: string, after: string)
    requires IsBroadPhrase(phrase)
    ensures IsBroadGrant(before + phrase + after)
  {
    assert phrase <= (before + phrase + after)[|before|..];
    assert Contains(before + phrase + after, phrase);
  }

  lemma Occurrence(s: string, part: string) returns (before: string, after: string)
    requires Contains(s, part)
    ensures s == before + part + after
  {
    var i :| 0 <= i <= |s| && part <= s[i..];
    before, after := s[..i], s[i + |part|..];
  }

  lemma PhraseIn(scope: string) returns (phrase: string)
    requires IsBroadGrant(scope)
    ensures IsBroadPhrase(phrase) && Contains(scope, phrase)
  {
    var i := if Contains(scope, "input: viewer may inject") then 0
             else if Contains(scope, "clipboard: host-to-viewer disclosure") then 1
             else if Contains(scope, "clipboard: viewer-to-host apply") then 2
             else if Contains(scope, "clipboard: bidirectional") then 3
             else if Contains(scope, "file-transfer: host-to-viewer send") then 4
             else if Contains(scope, "file-transfer: viewer-to-host receive") then 5
             else 6;
    phrase := BROAD_PHRASES[i];
  }

  /** And nothing else does. */
  lemma BroadOnlyIfPhrase(scope: string) returns (before: string, phrase: string, after: string)
    requires IsBroadGrant(scope)
    ensures IsBroadPhrase(phrase) && scope == before + phrase + after
  {
    phrase := PhraseIn(scope);
    before, after := Occurrence(scope, phrase);
  }

  // The log.

  /** The log ends with the event, newly added. */
  predicate Added(w: World, w': World, event: Log.Event) {
    && |w'.log.entries| > |w.log.entries| && w.log.entries <= w'.log.entries
    && w'.log.entries[|w'.log.entries| - 1].event == event
  }

  /** Nothing but host-trust events was added. */
  predicate AddedTrustOnly(w: World, w': World) {
    w.log.entries <= w'.log.entries && forall i | |w.log.entries| <= i < |w'.log.entries| :: IsTrustEvent(w'.log.entries[i].event)
  }

  lemma RecordAdds(env: Env, w: World, event: Log.Event, time: int, diskOk: bool)
    ensures var (ok, w') := Record(env, w, event, time, diskOk);
            && (ok ==> Added(w, w', event) && |w'.log.entries| == |w.log.entries| + 1) && (!ok ==> w' == w)
  {
    var (ok, w') := Record(env, w, event, time, diskOk);
    if ok {
      assert w.log.entries == w'.log.entries[..|w.log.entries|];
    }
  }

  lemma TrustAddsTrustOnly(env: Env, w: World, alias: string, suite: string, fp: Fingerprint, io: Io)
    ensures AddedTrustOnly(w, CheckTrust(env, w, alias, suite, fp, io).1)
  {
    var (checked, pins) := CheckPin(env.json, w.pins, alias, suite, fp, io.trustAnswer, io.pinDiskOk);
    if checked.Trusted? && !checked.outcome.Matched? {
      var event := TrustEvent(alias, suite, fp, checked.outcome).value;
      RecordAdds(env, World(pins, w.log), event, io.trustTime, io.trustDiskOk);
    }
  }

  /** A check that passes leaves the presented fingerprint pinned for the slot. */
  lemma PassedIsPinned(env: Env, w: World, alias: string, suite: string, fp: Fingerprint, io: Io)
    ensures var (trust, w') := CheckTrust(env, w, alias, suite, fp, io);
            trust.Passed? ==> alias + ":" + suite in w'.pins.pins && w'.pins.pins[alias + ":" + suite] == fp
  {
  }

  // A released signature.

  /** What every released signing answer implies: the request was well formed, it named a host, that
      host's fingerprint is pinned for the normalized endpoint and suite, and the evidence held. */
  predicate SignedFor(w': World, common: Common, fieldsOk: bool, host: Option<Fingerprint>, evidenceOk: bool) {
    && common.schemaOk && (common.suite == "standard" || common.suite == "highsec") && !AllSpace(common.endpoint) && fieldsOk
    && host.Some? && evidenceOk
    && var slot := NormalizeEndpoint(common.endpoint) + ":" + common.suite;
       slot in w'.pins.pins && w'.pins.pins[slot] == host.value
  }

  lemma SignReleases(env: Env, w: World, common: Common, fieldsOk: bool, host: Option<Fingerprint>, evidenceOk: bool,
                     action: Option<Log.Event>, io: Io)
    requires Sign(env, w, common, fieldsOk, host, evidenceOk, action, io).0.Released?
    ensures var w' := Sign(env, w, common, fieldsOk, host, evidenceOk, action, io).1;
            && SignedFor(w', common, fieldsOk, host, evidenceOk)
            && (action.None? ==> AddedTrustOnly(w, w'))
            && (action.Some? ==> io.actionAnswer == Answered(true) && Added(w, w', action.value))
  {
    TrimmedAway(common.endpoint);
    var alias := NormalizeEndpoint(common.endpoint);
    var mid := CheckTrust(env, w, alias, common.suite, host.value, io).1;
    PassedIsPinned(env, w, alias, common.suite, host.value, io);
    TrustAddsTrustOnly(env, w, alias, common.suite, host.value, io);
    if action.Some? {
      RecordAdds(env, mid, action.value, io.actionTime, io.actionDiskOk);
    }
  }

  /** A revocation is released only after a yes, and the log then ends with it. */
  lemma ReleasedRevocation(env: Env, w: World, common: Common, host: Option<Fingerprint>, tokenOk: bool, target: string, io: Io)
    requires Handle(env, w, SignRevoke(common, host, tokenOk, target), io).0.Released?
    ensures var w' := Handle(env, w, SignRevoke(common, host, tokenOk, target), io).1;
            && SignedFor(w', common, !AllSpace(target), host, tokenOk)
            && io.actionAnswer == Answered(true)
            && Added(w, w', Log.RevocationSigned(target, NormalizeEndpoint(common.endpoint)))
  {
    TrimmedAway(target);
    SignReleases(env, w, common, Trim(target) != "", host, tokenOk, ActionOf(SignRevoke(common, host, tokenOk, target)), io);
  }

  /** So is a key replacement. */
  lemma ReleasedReplacement(env: Env, w: World, common: Common, keysOk: bool, host: Option<Fingerprint>, tokenOk: bool, target: string,
                            newKeyHex: string, io: Io)
    requires Handle(env, w, ReplaceKey(common, keysOk, host, tokenOk, target, newKeyHex), io).0.Released?
    ensures var w' := Handle(env, w, ReplaceKey(common, keysOk, host, tokenOk, target, newKeyHex), io).1;
            && SignedFor(w', common, !AllSpace(target) && keysOk, host, tokenOk)
            && io.actionAnswer == Answered(true)
            && Added(w, w', Log.KeyReplacementSigned(target, newKeyHex, NormalizeEndpoint(common.endpoint)))
  {
    TrimmedAway(target);
    SignReleases(env, w, common, Trim(target) != "" && keysOk, host, tokenOk,
                 ActionOf(ReplaceKey(common, keysOk, host, tokenOk, target, newKeyHex)), io);
  }

  /** So is the approval of a scope in which one of the seven phrases occurs. */
  lemma ReleasedBroadGrant(env: Env, w: World, common: Common, sessionIdOk: bool, host: Option<Fingerprint>, tokenOk: bool,
                           before: string, phrase: string, after: string, io: Io)
    requires IsBroadPhrase(phrase)
    requires Handle(env, w, SignConsent(common, sessionIdOk, host, tokenOk, true, before + phrase + after), io).0.Released?
    ensures var w' := Handle(env, w, SignConsent(common, sessionIdOk, host, tokenOk, true, before + phrase + after), io).1;
            && SignedFor(w', common, sessionIdOk, host, tokenOk)
            && io.actionAnswer == Answered(true)
            && Added(w, w', Log.BroadGrantConfirmed(before + phrase + after, NormalizeEndpoint(common.endpoint)))
  {
    BroadIfPhrase(before, phrase, after);
    SignReleases(env, w, common, sessionIdOk, host, tokenOk,
                 ActionOf(SignConsent(common, sessionIdOk, host, tokenOk, true, before + phrase + after)), io);
  }

  /** Any other consent answer asks nobody and adds no event of its own. */
  lemma ReleasedNarrowConsent(env: Env, w: World, common: Common, sessionIdOk: bool, host: Option<Fingerprint>, tokenOk: bool,
                              approve: bool, scope: string, io: Io)
    requires !approve || forall before, phrase, after | IsBroadPhrase(phrase) :: scope != before + phrase + after
    requires Handle(env, w, SignConsent(common, sessionIdOk, host, tokenOk, approve, scope), io).0.Released?
    ensures var w' := Handle(env, w, SignConsent(common, sessionIdOk, host, tokenOk, approve, scope), io).1;
            SignedFor(w', common, sessionIdOk, host, tokenOk) && AddedTrustOnly(w, w')
  {
    if approve && IsBroadGrant(scope) {
      var before, phrase, after := BroadOnlyIfPhrase(scope);
      assert false;
    }
    SignReleases(env, w, common, sessionIdOk, host, tokenOk, ActionOf(SignConsent(common, sessionIdOk, host, tokenOk, approve, scope)), io);
  }

  /** A challenge is signed only if attested, and adds no event of its own. */
  lemma ReleasedChallenge(env: Env, w: World, common: Common, nonceOk: bool, host: Option<Fingerprint>, attested: bool, io: Io)
    requires Handle(env, w, SignChallenge(common, nonceOk, host, attested), io).0.Released?
    ensures var w' := Handle(env, w, SignChallenge(common, nonceOk, host, attested), io).1;
            SignedFor(w', common, nonceOk, host, attested) && AddedTrustOnly(w, w')
  {
    SignReleases(env, w, common, nonceOk, host, attested, None, io);
  }

  /** A handshake finishes only if its entry was taken and the host it proved is pinned. */
  lemma ReleasedHandshake(env: Env, w: World, taken: bool, endpoint: string, suite: string, host: Option<Fingerprint>, io: Io)
    requires Handle(env, w, HandshakeFinish(taken, endpoint, suite, host), io).0.Released?
    ensures var w' := Handle(env, w, HandshakeFinish(taken, endpoint, suite, host), io).1;
            && taken && host.Some? && AddedTrustOnly(w, w')
            && endpoint + ":" + suite in w'.pins.pins && w'.pins.pins[endpoint + ":" + suite] == host.value
  {
    PassedIsPinned(env, w, endpoint, suite, host.value, io);
    TrustAddsTrustOnly(env, w, endpoint, suite, host.value, io);
  }

  /** Sessions are handed out only once recorded. */
  lemma ReleasedSession(env: Env, w: World, io: Io)
    ensures var (r, w') := Handle(env, w, Pair, io); r.Released? ==> Added(w, w', Log.Paired)
    ensures var (r, w') := Handle(env, w, Refresh, io); r.Released? ==> Added(w, w', Log.SessionRefreshed)
  {
    RecordAdds(env, w, Log.Paired, io.actionTime, io.actionDiskOk);
    RecordAdds(env, w, Log.SessionRefreshed, io.actionTime, io.actionDiskOk);
  }

  // Records over whole runs.

  ghost predicate HasBroadPhrase(scope: string) {
    exists before, phrase, after :: IsBroadPhrase(phrase) && scope == before + phrase + after
  }

  /** What a released answer to the request leaves in the log, besides host-trust events. */
  ghost predicate LeavesRecord(req: Request, event: Log.Event) {
    match req
    case Pair => event == Log.Paired
    case Refresh => event == Log.SessionRefreshed
    case SignChallenge(_, _, _, _) => false
    case SignConsent(common, _, _, _, approve, scope) =>
      && approve && event == Log.BroadGrantConfirmed(scope, NormalizeEndpoint(common.endpoint))
      && HasBroadPhrase(scope)
    case SignRevoke(common, _, _, target) => event == Log.RevocationSigned(target, NormalizeEndpoint(common.endpoint))
    case ReplaceKey(common, _, _, _, target, newKeyHex) =>
      event == Log.KeyReplacementSigned(target, newKeyHex, NormalizeEndpoint(common.endpoint))
    case HandshakeFinish(_, _, _, _) => false
  }

  lemma BroadIff(scope: string)
    ensures IsBroadGrant(scope) <==> HasBroadPhrase(scope)
  {
    if IsBroadGrant(scope) {
      var before, phrase, after := BroadOnlyIfPhrase(scope);
    }
    if before, phrase, after :| IsBroadPhrase(phrase) && scope == before + phrase + after {
      BroadIfPhrase(before, phrase, after);
    }
  }

  /** The handlers' own notion of what a released answer owes is this one. */
  lemma ActionIff(req: Request, event: Log.Event)
    ensures ActionOf(req) == Some(event) <==> LeavesRecord(req, event)
  {
    if req.SignConsent? {
      BroadIff(req.scope);
    }
  }

  lemma ReleasedLeavesRecord(env: Env, w: World, req: Request, io: Io, event: Log.Event)
    requires Handle(env, w, req, io).0.Released? && LeavesRecord(req, event)
    ensures Added(w, Handle(env, w, req, io).1, event)
    ensures req.Pair? || req.Refresh? || io.actionAnswer == Answered(true)
  {
    match req
    case Pair => ReleasedSession(env, w, io);
    case Refresh => ReleasedSession(env, w, io);
    case SignConsent(common, sessionIdOk, host, tokenOk, approve, scope) =>
      var before, phrase, after :| IsBroadPhrase(phrase) && scope == before + phrase + after;
      ReleasedBroadGrant(env, w, common, sessionIdOk, host, tokenOk, before, phrase, after, io);
    case SignRevoke(common, host, tokenOk, target) => ReleasedRevocation(env, w, common, host, tokenOk, target, io);
    case ReplaceKey(common, keysOk, host, tokenOk, target, newKeyHex) =>
      ReleasedReplacement(env, w, common, keysOk, host, tokenOk, target, newKeyHex, io);
  }

  lemma SignExtendsLog(env: Env, w: World, common: Common, fieldsOk: bool, host: Option<Fingerprint>, evidenceOk: bool,
                       action: Option<Log.Event>, io: Io)
    ensures w.log.entries <= Sign(env, w, common, fieldsOk, host, evidenceOk, action, io).1.log.entries
  {
    if ValidCommon(common) && fieldsOk && host.Some? {
      var alias := NormalizeEndpoint(common.endpoint);
      TrustAddsTrustOnly(env, w, alias, common.suite, host.value, io);
      if action.Some? {
        RecordAdds(env, CheckTrust(env, w, alias, common.suite, host.value, io).1, action.value, io.actionTime, io.actionDiskOk);
      }
    }
  }

  lemma HandleExtendsLog(env: Env, w: World, req: Request, io: Io)
    ensures w.log.entries <= Handle(env, w, req, io).1.log.entries
  {
    match req
    case Pair => RecordAdds(env, w, Log.Paired, io.actionTime, io.actionDiskOk);
    case Refresh => RecordAdds(env, w, Log.SessionRefreshed, io.actionTime, io.actionDiskOk);
    case HandshakeFinish(taken, endpoint, suite, host) =>
      if taken && host.Some? {
        TrustAddsTrustOnly(env, w, endpoint, suite, host.value, io);
      }
    case _ => SignExtendsLog(env, w, req.common, FieldsOk(req), req.host, EvidenceOk(req), ActionOf(req), io);
  }

  function Entries(): World -> seq<Log.Entry> {
    (w: World) => w.log.entries
  }

  predicate EndsWithNew(before: seq<Log.Entry>, after: seq<Log.Entry>, event: Log.Event) {
    |before| < |after| && after[|after| - 1].event == event
  }

  /** The request leaves the record as the last entry of the log. */
  lemma ReleasedAt(env: Env, w: World, t: Turn, event: Log.Event)
    requires Handle(env, w, t.req, t.io).0.Released? && LeavesRecord(t.req, event)
    ensures t.req.Pair? || t.req.Refresh? || t.io.actionAnswer == Answered(true)
    ensures EndsWithNew(Entries()(w), Entries()(Agent.Stepper(env)(w, t)), event)
  {
    ReleasedLeavesRecord(env, w, t.req, t.io, event);
    assert Agent.Stepper(env)(w, t) == Handle(env, w, t.req, t.io).1;
  }

  lemma NewStays(env: Env, w: World, turns: seq<Turn>, n: nat, m: nat, event: Log.Event) returns (i: nat)
    requires n < m <= |turns|
    requires var x := WorldAt(env, w, turns, n); EndsWithNew(Entries()(x), Entries()(Agent.Stepper(env)(x, turns[n])), event)
    ensures var before, now := Entries()(WorldAt(env, w, turns, n)), Entries()(WorldAt(env, w, turns, m));
            |before| <= i < |now| && now[i].event == event
  {
    i := |Entries()(Agent.Stepper(env)(WorldAt(env, w, turns, n), turns[n]))| - 1;
    EntriesGrow(env);
    Runs.AddedStays(Agent.Stepper(env), Entries(), w, turns, n, m, i);
  }

  lemma EntriesGrow(env: Env)
    ensures forall x, t :: Entries()(x) <= Entries()(Agent.Stepper(env)(x, t))
  {
    forall x: World, t: Turn ensures Entries()(x) <= Entries()(Agent.Stepper(env)(x, t)) {
      HandleExtendsLog(env, x, t.req, t.io);
    }
  }

  /** On every run, a released revocation, key replacement or broad grant was confirmed, and it, a
      pairing or a refresh has its own record from then on: at `i`, where there was none before. */
  lemma ReleasedRecordsStay(env: Env, w: World, turns: seq<Turn>, n: nat, m: nat, event: Log.Event) returns (i: nat)
    requires n < m <= |turns| && ResponseAt(env, w, turns, n).Released? && LeavesRecord(turns[n].req, event)
    ensures turns[n].req.Pair? || turns[n].req.Refresh? || turns[n].io.actionAnswer == Answered(true)
    ensures var before, now := Entries()(WorldAt(env, w, turns, n)), Entries()(WorldAt(env, w, turns, m));
            |before| <= i < |now| && now[i].event == event
  {
    ReleasedAt(env, WorldAt(env, w, turns, n), turns[n], event);
    i := NewStays(env, w, turns, n, m, event);
  }

  // Refusals, each with its cause.

  predicate WellShaped(common: Common) {
    common.schemaOk && (common.suite == "standard" || common.suite == "highsec") && !AllSpace(common.endpoint)
  }

  /** A trust check is denied with the pin store's error, unrecorded if its event could not be written,
      and passed otherwise; a match writes nothing, and anything else its own event. */
  lemma TrustAnswers(env: Env, w: World, alias: string, suite: string, fp: Fingerprint, io: Io)
    ensures var (trust, w') := CheckTrust(env, w, alias, suite, fp, io);
            var (checked, pins) := CheckPin(env.json, w.pins, alias, suite, fp, io.trustAnswer, io.pinDiskOk);
            && (checked.Refused? <==> trust.Denied?) && (trust.Denied? ==> trust.error == checked.error && w' == w)
            && (checked == Trusted(Matched) ==> trust == Passed(Matched) && w' == w)
            && (checked == Trusted(TrustedOnFirstUse) && trust.Passed? ==> Added(w, w', Log.HostTrustFirstUse(alias, suite, HexEncode(fp))))
            && (checked.Trusted? && checked.outcome.Rotated? && trust.Passed? ==>
                  Added(w, w', Log.HostTrustRotation(alias, suite, HexEncode(checked.outcome.oldFingerprint), HexEncode(fp))))
            && (trust.Passed? ==> trust.outcome == checked.outcome && w'.pins == pins)
            && (trust == Unrecorded ==> w'.log == w.log && w'.pins == ForgetPin(env.json, pins, alias, suite, io.rollbackDiskOk).1)
            && (checked.Trusted? && checked.outcome != Matched && trust.Passed? ==> io.trustDiskOk)
  {
    var (checked, pins) := CheckPin(env.json, w.pins, alias, suite, fp, io.trustAnswer, io.pinDiskOk);
    if checked.Trusted? && !checked.outcome.Matched? {
      RecordAdds(env, World(pins, w.log), TrustEvent(alias, suite, fp, checked.outcome).value, io.trustTime, io.trustDiskOk);
    }
  }

  /** Every answer to a signing request, with what decides it, in order: shape, host, trust, evidence,
      confirmation, record. */
  lemma SigningAnswers(env: Env, w: World, common: Common, fieldsOk: bool, host: Option<Fingerprint>, evidenceOk: bool,
                       action: Option<Log.Event>, io: Io)
    ensures var (r, w') := Sign(env, w, common, fieldsOk, host, evidenceOk, action, io);
            && (r == BadRequest <==> !WellShaped(common) || !fieldsOk)
            && (r == BadRequest || (r == BadEvidence && host.None?) ==> w' == w)
            && (r != BadRequest && host.None? ==> r == BadEvidence)
            && (r != BadRequest && host.Some? ==>
                  var (trust, mid) := CheckTrust(env, w, NormalizeEndpoint(common.endpoint), common.suite, host.value, io);
                  && (trust.Denied? ==> r == HostRefused(trust.error) && w' == mid)
                  && (trust == Unrecorded ==> r == HostUnrecorded && w' == mid)
                  && (trust.Passed? && !evidenceOk ==> r == BadEvidence && w' == mid)
                  && (trust.Passed? && evidenceOk && action.None? ==> r == Released && w' == mid)
                  && (trust.Passed? && evidenceOk && action.Some? ==>
                        && (io.actionAnswer.Unanswered? ==> r == ConfirmationFailed(io.actionAnswer.error) && w' == mid)
                        && (io.actionAnswer == Answered(false) ==> r == Declined && w' == mid)
                        && (io.actionAnswer == Answered(true) ==>
                              var (ok, after) := Record(env, mid, action.value, io.actionTime, io.actionDiskOk);
                              r == (if ok then Released else ActionUnrecorded) && w' == after)))
  {
    TrimmedAway(common.endpoint);
  }

  /** The signing requests, from a host already pinned: a challenge stands or falls with its attestation,
      everything else with its token; and only the confirmed actions ask. */
  lemma PinnedHostAnswers(env: Env, w: World, req: Request, io: Io)
    requires IsSigning(req) && WellShaped(req.common) && req.host.Some?
    requires var slot := NormalizeEndpoint(req.common.endpoint) + ":" + req.common.suite;
             slot in w.pins.pins && w.pins.pins[slot] == req.host.value
    ensures var r := Handle(env, w, req, io).0;
            match req
            case SignChallenge(_, nonceOk, _, attested) =>
              r == if !nonceOk then BadRequest else if attested then Released else BadEvidence
            case SignConsent(_, sessionIdOk, _, tokenOk, approve, scope) =>
              && (!sessionIdOk ==> r == BadRequest) && (sessionIdOk && !tokenOk ==> r == BadEvidence)
              && (sessionIdOk && tokenOk && (!approve || !IsBroadGrant(scope)) ==> r == Released)
              && (sessionIdOk && tokenOk && approve && IsBroadGrant(scope) ==> Asked(r, io))
            case SignRevoke(_, _, tokenOk, target) =>
              && (AllSpace(target) ==> r == BadRequest) && (!AllSpace(target) && !tokenOk ==> r == BadEvidence)
              && (!AllSpace(target) && tokenOk ==> Asked(r, io))
            case ReplaceKey(_, keysOk, _, tokenOk, target, _) =>
              && (AllSpace(target) || !keysOk ==> r == BadRequest) && (!AllSpace(target) && keysOk && !tokenOk ==> r == BadEvidence)
              && (!AllSpace(target) && keysOk && tokenOk ==> Asked(r, io))
  {
    TrustAnswers(env, w, NormalizeEndpoint(req.common.endpoint), req.common.suite, req.host.value, io);
    SigningAnswers(env, w, req.common, FieldsOk(req), req.host, EvidenceOk(req), ActionOf(req), io);
    if req.SignRevoke? || req.ReplaceKey? {
      TrimmedAway(req.target);
    }
  }

  /** The answer follows the operator's: an error, a no, or a yes that is then recorded or not. */
  predicate Asked(r: Response, io: Io) {
    match io.actionAnswer
    case Unanswered(error) => r == ConfirmationFailed(error)
    case Answered(yes) => if yes then r == Released || r == ActionUnrecorded else r == Declined
  }
}
