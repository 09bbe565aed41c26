/** The operator agent's request handlers over the pin store and the audit log,
    and what sequential runs of them guarantee. */
module Agent {
  import opened Bytes
  import opened HostTrust
  import Log = AuditLog
  import Runs

  /** The fixed parts of a running agent. */
  datatype Env = Env(platform: Log.Platform, key: Log.SigningKey, json: PinCodec)

  datatype World = World(pins: PinState, log: Log.LogState)

  /** Everything a request gets from outside: the two prompts, the clock and the disk. */
  datatype Io = Io(
    trustAnswer: Answer, pinDiskOk: bool, trustTime: int, trustDiskOk: bool, rollbackDiskOk: bool,
    actionAnswer: Answer, actionTime: int, actionDiskOk: bool)

  // Text handling.

  predicate IsSpace(c: char) {
    var n := c as int;
    || 0x09 <= n <= 0x0D || n == 0x20 || n == 0x85 || n == 0xA0 || n == 0x1680 || 0x2000 <= n <= 0x200A
    || n == 0x2028 || n == 0x2029 || n == 0x202F || n == 0x205F || n == 0x3000
  }

  function TrimBy(space: char -> bool, s: string): string
    decreases |s|
  {
    if s == "" then ""
    else if space(s[0]) then TrimBy(space, s[1..])
    else if space(s[|s| - 1]) then TrimBy(space, s[..|s| - 1])
    else s
  }

  function Trim(s: string): string {
    TrimBy(IsSpace, s)
  }

  function LowerAscii(s: string): string {
    seq(|s|, i requires 0 <= i < |s| => if 'A' <= s[i] <= 'Z' then (s[i] as int + 32) as char else s[i])
  }

  function NormalizeEndpoint(raw: string): string {
    LowerAscii(Trim(raw))
  }

  predicate Contains(s: string, part: string) {
    exists i | 0 <= i <= |s| :: part <= s[i..]
  }

  predicate IsBroadGrant(scope: string) {
    || Contains(scope, "input: viewer may inject")
    || Contains(scope, "clipboard: host-to-viewer disclosure")
    || Contains(scope, "clipboard: viewer-to-host apply")
    || Contains(scope, "clipboard: bidirectional")
    || Contains(scope, "file-transfer: host-to-viewer send")
    || Contains(scope, "file-transfer: viewer-to-host receive")
    || Contains(scope, "file-transfer: bidirectional")
  }

  // Recording an event, and the host-trust check with its rollback.

  function Record(env: Env, w: World, event: Log.Event, time: int, diskOk: bool): (bool, World) {
    var (ok, log) := Log.AppendTransactional(env.platform, env.key, w.log, time, event, diskOk);
    (ok, w.(log := log))
  }

  datatype TrustResult = Passed(outcome: PinOutcome) | Denied(error: TrustError) | Unrecorded

  /** First use and rotation are recorded; a match is not. */
  function TrustEvent(alias: string, suite: string, fp: Fingerprint, outcome: PinOutcome): Option<Log.Event> {
    match outcome
    case TrustedOnFirstUse => Some(Log.HostTrustFirstUse(alias, suite, HexEncode(fp)))
    case Rotated(was) => Some(Log.HostTrustRotation(alias, suite, HexEncode(was), HexEncode(fp)))
    case Matched => None
  }

  /** Record the decision, or forget the pin if that fails. */
  function RecordOrForget(env: Env, w: World, alias: string, suite: string, event: Log.Event, io: Io): (bool, World) {
    var (ok, w') := Record(env, w, event, io.trustTime, io.trustDiskOk);
    (ok, if ok then w' else w'.(pins := ForgetPin(env.json, w'.pins, alias, suite, io.rollbackDiskOk).1))
  }

  function CheckTrust(env: Env, w: World, alias: string, suite: string, fp: Fingerprint, io: Io): (TrustResult, World) {
    var (checked, pins) := CheckPin(env.json, w.pins, alias, suite, fp, io.trustAnswer, io.pinDiskOk);
    if checked.Refused? then (Denied(checked.error), w)
    else
      var event := TrustEvent(alias, suite, fp, checked.outcome);
      if event.None? then (Passed(checked.outcome), w)
      else
        var (ok, w') := RecordOrForget(env, World(pins, w.log), alias, suite, event.value, io);
        (if ok then Passed(checked.outcome) else Unrecorded, w')
  }

  // Requests. Checks on evidence and field formats are outcomes of the request.

  datatype Common = Common(schemaOk: bool, endpoint: string, suite: string)

  datatype Request =
    | Pair
    | Refresh
    | SignChallenge(common: Common, nonceOk: bool, host: Option<Fingerprint>, attested: bool)
    | SignConsent(common: Common, sessionIdOk: bool, host: Option<Fingerprint>, tokenOk: bool, approve: bool, scope: string)
    | SignRevoke(common: Common, host: Option<Fingerprint>, tokenOk: bool, target: string)
    | ReplaceKey(common: Common, keysOk: bool, host: Option<Fingerprint>, tokenOk: bool, target: string, newKeyHex: string)
    | HandshakeFinish(taken: bool, endpoint: string, suite: string, host: Option<Fingerprint>)

  datatype Response =
    | Released | BadRequest | BadEvidence | HostRefused(error: TrustError) | HostUnrecorded
    | ConfirmationFailed(error: TrustError) | Declined | ActionUnrecorded

  predicate ValidCommon(c: Common) {
    c.schemaOk && KnownSuite(c.suite) && Trim(c.endpoint) != ""
  }

  /** The audit event a released answer to this request must leave behind. */
  function ActionOf(req: Request): Option<Log.Event> {
    match req
    case Pair => Some(Log.Paired)
    case Refresh => Some(Log.SessionRefreshed)
    case SignConsent(common, _, _, _, approve, scope) =>
      if approve && IsBroadGrant(scope) then Some(Log.BroadGrantConfirmed(scope, NormalizeEndpoint(common.endpoint))) else None
    case SignRevoke(common, _, _, target) => Some(Log.RevocationSigned(target, NormalizeEndpoint(common.endpoint)))
    case ReplaceKey(common, _, _, _, target, newKeyHex) =>
      Some(Log.KeyReplacementSigned(target, newKeyHex, NormalizeEndpoint(common.endpoint)))
    case _ => None
  }

  function RecordAndRelease(env: Env, w: World, event: Log.Event, io: Io): (Response, World) {
    var (ok, w') := Record(env, w, event, io.actionTime, io.actionDiskOk);
    (if ok then Released else ActionUnrecorded, w')
  }

  function ConfirmAndRelease(env: Env, w: World, action: Option<Log.Event>, io: Io): (Response, World) {
    if action.None? then (Released, w)
    else match io.actionAnswer
      case Unanswered(error) => (ConfirmationFailed(error), w)
      case Answered(yes) => if yes then RecordAndRelease(env, w, action.value, io) else (Declined, w)
  }

  function AfterTrust(env: Env, w: World, trust: TrustResult, evidenceOk: bool, action: Option<Log.Event>, io: Io): (Response, World) {
    match trust
    case Denied(error) => (HostRefused(error), w)
    case Unrecorded => (HostUnrecorded, w)
    case Passed(_) => if !evidenceOk then (BadEvidence, w) else ConfirmAndRelease(env, w, action, io)
  }

  /** The steps all signing handlers share, in their order: shape, host trust, evidence, action. */
  function Sign(env: Env, w: World, common: Common, fieldsOk: bool, host: Option<Fingerprint>, evidenceOk: bool,
                action: Option<Log.Event>, io: Io): (Response, World) {
    if !ValidCommon(common) || !fieldsOk then (BadRequest, w)
    else if host.None? then (BadEvidence, w)
    else
      var (trust, w') := CheckTrust(env, w, NormalizeEndpoint(common.endpoint), common.suite, host.value, io);
      AfterTrust(env, w', trust, evidenceOk, action, io)
  }

  predicate IsSigning(req: Request) {
    req.SignChallenge? || req.SignConsent? || req.SignRevoke? || req.ReplaceKey?
  }

  /** The request's own fields are well formed. */
  predicate FieldsOk(req: Request)
    requires IsSigning(req)
  {
    match req
    case SignChallenge(_, nonceOk, _, _) => nonceOk
    case SignConsent(_, sessionIdOk, _, _, _, _) => sessionIdOk
    case SignRevoke(_, _, _, target) => Trim(target) != ""
    case ReplaceKey(_, keysOk, _, _, target, _) => Trim(target) != "" && keysOk
  }

  /** The challenge attestation or the session token verifies under the host's keys. */
  predicate EvidenceOk(req: Request)
    requires IsSigning(req)
  {
    if req.SignChallenge? then req.attested else req.tokenOk
  }

  function Finish(env: Env, w: World, taken: bool, endpoint: string, suite: string, host: Option<Fingerprint>, io: Io)
    : (Response, World) {
    if !taken || host.None? then (BadRequest, w)
    else
      var (trust, w') := CheckTrust(env, w, endpoint, suite, host.value, io);
      AfterTrust(env, w', trust, true, None, io)
  }

  function Handle(env: Env, w: World, req: Request, io: Io): (Response, World) {
    match req
    case Pair => RecordAndRelease(env, w, Log.Paired, io)
    case Refresh => RecordAndRelease(env, w, Log.SessionRefreshed, io)
    case HandshakeFinish(taken, endpoint, suite, host) => Finish(env, w, taken, endpoint, suite, host, io)
    case _ => Sign(env, w, req.common, FieldsOk(req), req.host, EvidenceOk(req), ActionOf(req), io)
  }

  datatype Turn = Turn(req: Request, io: Io)

  function Stepper(env: Env): (World, Turn) -> World {
    (w: World, t: Turn) => Handle(env, w, t.req, t.io).1
  }

  function WorldAt(env: Env, w: World, turns: seq<Turn>, n: nat): World
    requires n <= |turns|
  {
    Runs.At(Stepper(env), w, turns, n)
  }

  function ResponseAt(env: Env, w: World, turns: seq<Turn>, n: nat): Response
    requires n < |turns|
  {
    Handle(env, WorldAt(env, w, turns, n), turns[n].req, turns[n].io).0
  }

  // Released answers against audit records.

  predicate IsTrustEvent(e: Log.Event) {
    e.HostTrustFirstUse? || e.HostTrustRotation?
  }

  /** The recorded events other than host-trust decisions, in order. */
  function ActionEvents(entries: seq<Log.Entry>): seq<Log.Event> {
    if entries == [] then []
    else
      var last := entries[|entries| - 1].event;
      ActionEvents(entries[..|entries| - 1]) + if IsTrustEvent(last) then [] else [last]
  }

  /** The event a released answer owes. */
  function Owed(r: Response, action: Option<Log.Event>): seq<Log.Event> {
    if r.Released? && action.Some? then [action.value] else []
  }

  function Owes(env: Env): (World, Turn) -> seq<Log.Event> {
    (w: World, t: Turn) => Owed(Handle(env, w, t.req, t.io).0, ActionOf(t.req))
  }

  /** The events owed for the released answers among the first `n`, in order. */
  function ReleasedActions(env: Env, w: World, turns: seq<Turn>, n: nat): seq<Log.Event>
    requires n <= |turns|
  {
    Runs.Emitted(Stepper(env), Owes(env), w, turns, n)
  }

  lemma RecordAddsAction(env: Env, w: World, event: Log.Event, time: int, diskOk: bool)
    ensures var (ok, w') := Record(env, w, event, time, diskOk);
            ActionEvents(w'.log.entries) == ActionEvents(w.log.entries) + if ok && !IsTrustEvent(event) then [event] else []
  {
    var w' := Record(env, w, event, time, diskOk).1;
    assert w'.log.entries == w.log.entries || w'.log.entries[..|w'.log.entries| - 1] == w.log.entries;
  }

  lemma TrustAddsNoAction(env: Env, w: World, alias: string, suite: string, fp: Fingerprint, io: Io)
    ensures ActionEvents(CheckTrust(env, w, alias, suite, fp, io).1.log.entries) == ActionEvents(w.log.entries)
  {
    var (checked, pins) := CheckPin(env.json, w.pins, alias, suite, fp, io.trustAnswer, io.pinDiskOk);
    if checked.Trusted? && TrustEvent(alias, suite, fp, checked.outcome).Some? {
      RecordAddsAction(env, World(pins, w.log), TrustEvent(alias, suite, fp, checked.outcome).value, io.trustTime, io.trustDiskOk);
    }
  }

  lemma ReleaseAddsAction(env: Env, w: World, event: Log.Event, io: Io)
    requires !IsTrustEvent(event)
    ensures var (r, w') := RecordAndRelease(env, w, event, io);
            ActionEvents(w'.log.entries) == ActionEvents(w.log.entries) + Owed(r, Some(event))
  {
    RecordAddsAction(env, w, event, io.actionTime, io.actionDiskOk);
  }

  lemma ConfirmAddsAction(env: Env, w: World, action: Option<Log.Event>, io: Io)
    requires action.Some? ==> !IsTrustEvent(action.value)
    ensures var (r, w') := ConfirmAndRelease(env, w, action, io);
            && ActionEvents(w'.log.entries) == ActionEvents(w.log.entries) + Owed(r, action)
            && (Owed(r, action) != [] ==> io.actionAnswer == CONFIRMED)
  {
    if action.Some? && io.actionAnswer == CONFIRMED {
      ReleaseAddsAction(env, w, action.value, io);
    } else {
      assert ConfirmAndRelease(env, w, action, io).1 == w;
    }
  }

  lemma ActionAddsAction(env: Env, w: World, trust: TrustResult, evidenceOk: bool, action: Option<Log.Event>, io: Io)
    requires action.Some? ==> !IsTrustEvent(action.value)
    ensures var (r, w') := AfterTrust(env, w, trust, evidenceOk, action, io);
            && ActionEvents(w'.log.entries) == ActionEvents(w.log.entries) + Owed(r, action)
            && (Owed(r, action) != [] ==> io.actionAnswer == CONFIRMED)
  {
    if trust.Passed? && evidenceOk {
      ConfirmAddsAction(env, w, action, io);
    }
  }

  lemma SignAddsAction(env: Env, w: World, common: Common, fieldsOk: bool, host: Option<Fingerprint>, evidenceOk: bool,
                       action: Option<Log.Event>, io: Io)
    requires action.Some? ==> !IsTrustEvent(action.value)
    ensures var (r, w') := Sign(env, w, common, fieldsOk, host, evidenceOk, action, io);
            && ActionEvents(w'.log.entries) == ActionEvents(w.log.entries) + Owed(r, action)
            && (Owed(r, action) != [] ==> io.actionAnswer == CONFIRMED)
  {
    if ValidCommon(common) && fieldsOk && host.Some? {
      var alias := NormalizeEndpoint(common.endpoint);
      TrustAddsNoAction(env, w, alias, common.suite, host.value, io);
      var (trust, w') := CheckTrust(env, w, alias, common.suite, host.value, io);
      ActionAddsAction(env, w', trust, evidenceOk, action, io);
    }
  }

  lemma FinishAddsNoAction(env: Env, w: World, taken: bool, endpoint: string, suite: string, host: Option<Fingerprint>, io: Io)
    ensures ActionEvents(Finish(env, w, taken, endpoint, suite, host, io).1.log.entries) == ActionEvents(w.log.entries)
  {
    if taken && host.Some? {
      TrustAddsNoAction(env, w, endpoint, suite, host.value, io);
    }
  }

  lemma HandleAddsAction(env: Env, w: World, req: Request, io: Io)
    ensures var (r, w') := Handle(env, w, req, io);
            && ActionEvents(w'.log.entries) == ActionEvents(w.log.entries) + Owed(r, ActionOf(req))
            && (Owed(r, ActionOf(req)) != [] && !req.Pair? && !req.Refresh? ==> io.actionAnswer == CONFIRMED)
  {
    match req
    case Pair => ReleaseAddsAction(env, w, Log.Paired, io);
    case Refresh => ReleaseAddsAction(env, w, Log.SessionRefreshed, io);
    case HandshakeFinish(taken, endpoint, suite, host) => FinishAddsNoAction(env, w, taken, endpoint, suite, host, io);
    case _ => SignAddsAction(env, w, req.common, FieldsOk(req), req.host, EvidenceOk(req), ActionOf(req), io);
  }

  /** In every sequential run the non-trust audit events are exactly the released
      answers that owe one, in order. */
  lemma ReleasesAreAudited(env: Env, w: World, turns: seq<Turn>, n: nat)
    requires n <= |turns|
    ensures ActionEvents(WorldAt(env, w, turns, n).log.entries)
            == ActionEvents(w.log.entries) + ReleasedActions(env, w, turns, n)
  {
    var log := (x: World) => ActionEvents(x.log.entries);
    forall x, t ensures log(Stepper(env)(x, t)) == log(x) + Owes(env)(x, t) {
      HandleAddsAction(env, x, t.req, t.io);
    }
    Runs.LogIsEmitted(Stepper(env), Owes(env), log, w, turns, n);
  }

  /** No revocation, key replacement or broad grant is released without its own confirmation. */
  lemma ReleasesAreConfirmed(env: Env, w: World, turns: seq<Turn>, n: nat)
    requires n < |turns| && ResponseAt(env, w, turns, n).Released?
    requires ActionOf(turns[n].req).Some? && !turns[n].req.Pair? && !turns[n].req.Refresh?
    ensures turns[n].io.actionAnswer == CONFIRMED
  {
    HandleAddsAction(env, WorldAt(env, w, turns, n), turns[n].req, turns[n].io);
  }

  // Pins against audit records.

  function ReplayEvent(m: map<string, string>, e: Log.Event): map<string, string> {
    match e
    case HostTrustFirstUse(endpoint, suite, fp) => m[Key(endpoint, suite) := fp]
    case HostTrustRotation(endpoint, suite, _, fp) => m[Key(endpoint, suite) := fp]
    case _ => m
  }

  /** The last host-trust event per slot. */
  function Replay(entries: seq<Log.Entry>): map<string, string> {
    if entries == [] then map[] else ReplayEvent(Replay(entries[..|entries| - 1]), entries[|entries| - 1].event)
  }

  predicate RecordedAs(m: map<string, string>, key: string, fp: Fingerprint) {
    key in m && m[key] == HexEncode(fp)
  }

  predicate PinsRecorded(pins: Pins, m: map<string, string>) {
    forall k | k in pins :: RecordedAs(m, k, pins[k])
  }

  /** Every pin is the last one the log records for its slot. */
  predicate Agrees(w: World) {
    PinsRecorded(w.pins.pins, Replay(w.log.entries))
  }

  lemma PinningOne(pins: Pins, m: map<string, string>, key: string, fp: Fingerprint)
    requires PinsRecorded(pins, m)
    ensures PinsRecorded(pins[key := fp], m[key := HexEncode(fp)])
    ensures PinsRecorded(pins[key := fp] - {key}, m)
    ensures PinsRecorded(pins[key := fp], m) <==> RecordedAs(m, key, fp)
  {
    assert key in pins[key := fp];
  }

  /** The event says that `key` was trusted with `fp`. */
  predicate Names(e: Log.Event, key: string, fp: Fingerprint) {
    || (e.HostTrustFirstUse? && Key(e.endpoint, e.suite) == key && e.fingerprintHex == HexEncode(fp))
    || (e.HostTrustRotation? && Key(e.endpoint, e.suite) == key && e.newFingerprintHex == HexEncode(fp))
  }

  /** Each recorded rotation starts from the fingerprint recorded just before it. */
  predicate RotationsLink(entries: seq<Log.Entry>) {
    forall i | 0 <= i < |entries| && entries[i].event.HostTrustRotation? ::
      var e := entries[i].event;
      Key(e.endpoint, e.suite) in Replay(entries[..i]) && Replay(entries[..i])[Key(e.endpoint, e.suite)] == e.oldFingerprintHex
  }

  /** The pin reached the disk, its event did not, and neither did its removal. */
  predicate RollbackLost(env: Env, w: World, alias: string, suite: string, fp: Fingerprint, io: Io) {
    var (checked, pins) := CheckPin(env.json, w.pins, alias, suite, fp, io.trustAnswer, io.pinDiskOk);
    && checked.Trusted?
    && TrustEvent(alias, suite, fp, checked.outcome).Some?
    && !Record(env, World(pins, w.log), TrustEvent(alias, suite, fp, checked.outcome).value, io.trustTime, io.trustDiskOk).0
    && !ForgetPin(env.json, pins, alias, suite, io.rollbackDiskOk).0
  }

  /** A lost rollback does no harm if the log records that fingerprint for the slot already. */
  predicate Harmless(env: Env, w: World, alias: string, suite: string, fp: Fingerprint, io: Io) {
    RollbackLost(env, w, alias, suite, fp, io) ==> RecordedAs(Replay(w.log.entries), Key(alias, suite), fp)
  }

  /** Recording changes no pin and replays as the old log followed by the event. */
  lemma RecordReplay(env: Env, w: World, event: Log.Event, time: int, diskOk: bool)
    ensures var (ok, w') := Record(env, w, event, time, diskOk);
            && w'.pins == w.pins
            && Replay(w'.log.entries) == (if ok then ReplayEvent(Replay(w.log.entries), event) else Replay(w.log.entries))
  {
    var (ok, w') := Record(env, w, event, time, diskOk);
    assert ok ==> w'.log.entries[..|w.log.entries|] == w.log.entries;
  }

  lemma RecordReplays(env: Env, w: World, event: Log.Event, time: int, diskOk: bool)
    requires RotationsLink(w.log.entries)
    requires event.HostTrustRotation? ==> var k := Key(event.endpoint, event.suite);
                                          k in Replay(w.log.entries) && Replay(w.log.entries)[k] == event.oldFingerprintHex
    ensures var (ok, w') := Record(env, w, event, time, diskOk);
            && w'.pins == w.pins && RotationsLink(w'.log.entries)
            && Replay(w'.log.entries) == (if ok then ReplayEvent(Replay(w.log.entries), event) else Replay(w.log.entries))
  {
    var (ok, w') := Record(env, w, event, time, diskOk);
    var n := |w.log.entries|;
    RecordReplay(env, w, event, time, diskOk);
    if ok {
      assert w'.log.entries[..n] == w.log.entries;
      forall i | 0 <= i < n ensures w'.log.entries[i] == w.log.entries[i] && w'.log.entries[..i] == w.log.entries[..i] {
        assert w'.log.entries[..n][i] == w'.log.entries[i] && w'.log.entries[..n][..i] == w'.log.entries[..i];
      }
    }
  }

  /** Agreement after recording or forgetting a fingerprint just put in its slot. */
  lemma SettledAgreement(env: Env, w: World, before: Pins, alias: string, suite: string, fp: Fingerprint, event: Log.Event, io: Io)
    requires PinsRecorded(before, Replay(w.log.entries)) && RotationsLink(w.log.entries)
    requires w.pins.pins == before[Key(alias, suite) := fp] && Names(event, Key(alias, suite), fp)
    requires event.HostTrustRotation? ==> Key(alias, suite) in before && HexEncode(before[Key(alias, suite)]) == event.oldFingerprintHex
    ensures var (ok, w') := RecordOrForget(env, w, alias, suite, event, io);
            var lost := !ok && !ForgetPin(env.json, w.pins, alias, suite, io.rollbackDiskOk).0;
            && RotationsLink(w'.log.entries)
            && (Agrees(w') <==> lost ==> RecordedAs(Replay(w.log.entries), Key(alias, suite), fp))
  {
    RecordReplays(env, w, event, io.trustTime, io.trustDiskOk);
    PinningOne(before, Replay(w.log.entries), Key(alias, suite), fp);
  }

  /** From an agreeing world, one trust check keeps agreement exactly when its rollback
      is not lost, or the log happens to record that fingerprint for the slot already. */
  lemma TrustKeepsAgreement(env: Env, w: World, alias: string, suite: string, fp: Fingerprint, io: Io)
    requires Agrees(w) && RotationsLink(w.log.entries)
    ensures var w' := CheckTrust(env, w, alias, suite, fp, io).1;
            && RotationsLink(w'.log.entries)
            && (Agrees(w') <==> Harmless(env, w, alias, suite, fp, io))
            && (!Agrees(w') ==> CheckTrust(env, w, alias, suite, fp, io).0 == Unrecorded)
  {
    var (checked, pins) := CheckPin(env.json, w.pins, alias, suite, fp, io.trustAnswer, io.pinDiskOk);
    if checked.Trusted? && !checked.outcome.Matched? {
      var event := TrustEvent(alias, suite, fp, checked.outcome).value;
      SettledAgreement(env, World(pins, w.log), w.pins.pins, alias, suite, fp, event, io);
    }
  }

  lemma ActionKeepsAgreement(env: Env, w: World, trust: TrustResult, evidenceOk: bool, action: Option<Log.Event>, io: Io)
    requires Agrees(w) && RotationsLink(w.log.entries) && (action.Some? ==> !IsTrustEvent(action.value))
    ensures var w' := AfterTrust(env, w, trust, evidenceOk, action, io).1; Agrees(w') && RotationsLink(w'.log.entries)
  {
    if action.Some? {
      RecordReplays(env, w, action.value, io.actionTime, io.actionDiskOk);
    }
  }

  lemma SignKeepsAgreement(env: Env, w: World, common: Common, fieldsOk: bool, host: Option<Fingerprint>, evidenceOk: bool,
                           action: Option<Log.Event>, io: Io)
    requires Agrees(w) && RotationsLink(w.log.entries) && (action.Some? ==> !IsTrustEvent(action.value))
    ensures var w' := Sign(env, w, common, fieldsOk, host, evidenceOk, action, io).1;
            && RotationsLink(w'.log.entries)
            && (Agrees(w') <==> ValidCommon(common) && fieldsOk && host.Some? ==>
                                  Harmless(env, w, NormalizeEndpoint(common.endpoint), common.suite, host.value, io))
  {
    if ValidCommon(common) && fieldsOk && host.Some? {
      var alias := NormalizeEndpoint(common.endpoint);
      TrustKeepsAgreement(env, w, alias, common.suite, host.value, io);
      var (trust, w') := CheckTrust(env, w, alias, common.suite, host.value, io);
      if Agrees(w') {
        ActionKeepsAgreement(env, w', trust, evidenceOk, action, io);
      }
    }
  }

  lemma FinishKeepsAgreement(env: Env, w: World, taken: bool, endpoint: string, suite: string, host: Option<Fingerprint>, io: Io)
    requires Agrees(w) && RotationsLink(w.log.entries)
    ensures var w' := Finish(env, w, taken, endpoint, suite, host, io).1;
            && RotationsLink(w'.log.entries)
            && (Agrees(w') <==> taken && host.Some? ==> Harmless(env, w, endpoint, suite, host.value, io))
  {
    if taken && host.Some? {
      TrustKeepsAgreement(env, w, endpoint, suite, host.value, io);
    }
  }

  /** The request does not reach its trust check, or that check does no harm. */
  predicate HarmlessRequest(env: Env, w: World, req: Request, io: Io) {
    match req
    case Pair => true
    case Refresh => true
    case HandshakeFinish(taken, endpoint, suite, host) => taken && host.Some? ==> Harmless(env, w, endpoint, suite, host.value, io)
    case _ =>
      ValidCommon(req.common) && FieldsOk(req) && req.host.Some? ==>
        Harmless(env, w, NormalizeEndpoint(req.common.endpoint), req.common.suite, req.host.value, io)
  }

  /** From an agreeing world, a request keeps agreement exactly when it is harmless. */
  lemma HandleKeepsAgreement(env: Env, w: World, req: Request, io: Io)
    requires Agrees(w) && RotationsLink(w.log.entries)
    ensures var w' := Handle(env, w, req, io).1; RotationsLink(w'.log.entries) && (Agrees(w') <==> HarmlessRequest(env, w, req, io))
  {
    match req
    case Pair => RecordReplays(env, w, Log.Paired, io.actionTime, io.actionDiskOk);
    case Refresh => RecordReplays(env, w, Log.SessionRefreshed, io.actionTime, io.actionDiskOk);
    case HandshakeFinish(taken, endpoint, suite, host) => FinishKeepsAgreement(env, w, taken, endpoint, suite, host, io);
    case _ => SignKeepsAgreement(env, w, req.common, FieldsOk(req), req.host, EvidenceOk(req), ActionOf(req), io);
  }

  function HarmlessTurn(env: Env): (World, Turn) -> bool {
    (w: World, t: Turn) => HarmlessRequest(env, w, t.req, t.io)
  }

  function Agreeing(): World -> bool {
    (w: World) => Agrees(w) && RotationsLink(w.log.entries)
  }

  /** The sequential runs in which replaying the log agrees with every pin throughout, and every
      rotation starts from the previously recorded fingerprint, are exactly the harmless ones. */
  lemma ReplayAgreesWithPins(env: Env, w: World, turns: seq<Turn>, n: nat)
    requires Agrees(w) && RotationsLink(w.log.entries) && n <= |turns|
    ensures Runs.Allowed(Stepper(env), HarmlessTurn(env), w, turns, n) <==> Runs.Throughout(Stepper(env), Agreeing(), w, turns, n)
  {
    forall x, t | Agreeing()(x) ensures Agreeing()(Stepper(env)(x, t)) <==> HarmlessTurn(env)(x, t) {
      HandleKeepsAgreement(env, x, t.req, t.io);
    }
    Runs.InvariantIff(Stepper(env), HarmlessTurn(env), Agreeing(), w, turns, n);
  }

  /** In a harmless run the last event for a pinned slot records the pinned fingerprint and no other. */
  lemma LastRecordIsThePin(env: Env, w: World, turns: seq<Turn>, n: nat, key: string, fp: Fingerprint)
    requires Agrees(w) && RotationsLink(w.log.entries) && n <= |turns|
    requires Runs.Allowed(Stepper(env), HarmlessTurn(env), w, turns, n) && key in WorldAt(env, w, turns, n).pins.pins
    ensures var now := WorldAt(env, w, turns, n); RecordedAs(Replay(now.log.entries), key, fp) <==> fp == now.pins.pins[key]
  {
    ReplayAgreesWithPins(env, w, turns, n);
    var now := WorldAt(env, w, turns, n);
    assert Agreeing()(now);
    if RecordedAs(Replay(now.log.entries), key, fp) {
      HexInjective(fp, now.pins.pins[key]);
    }
  }

  // The handlers as they run, over the live store and log.

  class OperatorAgent {
    const trust: HostTrustStore
    const audit: Log.AgentAuditChain

    constructor (trust: HostTrustStore, audit: Log.AgentAuditChain)
      ensures this.trust == trust && this.audit == audit
    {
      this.trust, this.audit := trust, audit;
    }

    ghost function TheEnv(): Env {
      Env(audit.platform, audit.key, trust.json)
    }

    ghost function TheWorld(): World
      reads trust, trust.storage, audit, audit.file
    {
      World(trust.State(), audit.State())
    }

    method RecordAuditEvent(event: Log.Event, time: int, diskOk: bool) returns (ok: bool)
      modifies audit, audit.file
      ensures (ok, TheWorld()) == Record(TheEnv(), old(TheWorld()), event, time, diskOk)
    {
      ok := audit.Append(time, event, diskOk);
    }

    /** Check the pin, record the decision, and forget the pin if recording failed. */
    method CheckHostTrust(alias: string, suite: string, fp: Fingerprint, io: Io) returns (r: TrustResult)
      modifies trust, trust.storage, audit, audit.file
      ensures (r, TheWorld()) == CheckTrust(TheEnv(), old(TheWorld()), alias, suite, fp, io)
    {
      var checked := trust.Check(alias, suite, fp, io.trustAnswer, io.pinDiskOk);
      if checked.Refused? {
        return Denied(checked.error);
      }
      var event := TrustEvent(alias, suite, fp, checked.outcome);
      if event.Some? {
        var ok := RecordAuditEvent(event.value, io.trustTime, io.trustDiskOk);
        if !ok {
          var _ := trust.Forget(alias, suite, io.rollbackDiskOk);
          return Unrecorded;
        }
      }
      r := Passed(checked.outcome);
    }

    method ConfirmAction(action: Option<Log.Event>, io: Io) returns (r: Response)
      modifies audit, audit.file
      ensures (r, TheWorld()) == ConfirmAndRelease(TheEnv(), old(TheWorld()), action, io)
    {
      if action.Some? {
        if io.actionAnswer.Unanswered? {
          return ConfirmationFailed(io.actionAnswer.error);
        }
        if !io.actionAnswer.yes {
          return Declined;
        }
        var ok := RecordAuditEvent(action.value, io.actionTime, io.actionDiskOk);
        if !ok {
          return ActionUnrecorded;
        }
      }
      r := Released;
    }

    method SignTyped(common: Common, fieldsOk: bool, host: Option<Fingerprint>, evidenceOk: bool,
                     action: Option<Log.Event>, io: Io) returns (r: Response)
      modifies trust, trust.storage, audit, audit.file
      ensures (r, TheWorld()) == Sign(TheEnv(), old(TheWorld()), common, fieldsOk, host, evidenceOk, action, io)
    {
      if !ValidCommon(common) || !fieldsOk {
        return BadRequest;
      }
      if host.None? {
        return BadEvidence;
      }
      var checked := CheckHostTrust(NormalizeEndpoint(common.endpoint), common.suite, host.value, io);
      match checked {
        case Denied(error) => return HostRefused(error);
        case Unrecorded => return HostUnrecorded;
        case Passed(_) =>
      }
      if !evidenceOk {
        return BadEvidence;
      }
      r := ConfirmAction(action, io);
    }

    /** One request from start to answer. */
    method Serve(req: Request, io: Io) returns (r: Response)
      modifies trust, trust.storage, audit, audit.file
      ensures (r, TheWorld()) == Handle(TheEnv(), old(TheWorld()), req, io)
    {
      match req {
        case Pair =>
          var ok := RecordAuditEvent(Log.Paired, io.actionTime, io.actionDiskOk);
          r := if ok then Released else ActionUnrecorded;
        case Refresh =>
          var ok := RecordAuditEvent(Log.SessionRefreshed, io.actionTime, io.actionDiskOk);
          r := if ok then Released else ActionUnrecorded;
        case HandshakeFinish(taken, endpoint, suite, host) =>
          if !taken || host.None? {
            return BadRequest;
          }
          var checked := CheckHostTrust(endpoint, suite, host.value, io);
          r := match checked
               case Denied(error) => HostRefused(error)
               case Unrecorded => HostUnrecorded
               case Passed(_) => Released;
        case _ => r := SignTyped(req.common, FieldsOk(req), req.host, EvidenceOk(req), ActionOf(req), io);
      }
    }
  }
}
