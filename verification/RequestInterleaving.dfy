/** Whole requests served concurrently. A request passes through stages; what it does between
    taking and releasing a lock is one step, and steps of different requests interleave freely.
    Served alone it is the sequential handler, its trust check is the one of
    `TrustInterleaving`, and released answers and audit records still correspond. */
module RequestInterleaving {
  import opened Bytes
  import opened HostTrust
  import opened Agent
  import Trust = TrustInterleaving
  import Order = TrustOrdering
  import Log = AuditLog
  import Runs

  /** Where a request stands. */
  datatype Stage =
    | Entered(req: Request)
    | Checking(req: Request, alias: string, suite: string, fp: Fingerprint)
    | RecordingTrust(req: Request, alias: string, suite: string, fp: Fingerprint, event: Log.Event)
    | RollingBack(req: Request, alias: string, suite: string)
    | Vouched(req: Request)
    | Recording(req: Request, action: Log.Event)
    | Recorded(req: Request)
    | Done(req: Request, response: Response)

  /** Validation, up to the first lock. */
  function Enter(req: Request): Stage {
    match req
    case Pair => Recording(req, Log.Paired)
    case Refresh => Recording(req, Log.SessionRefreshed)
    case HandshakeFinish(taken, endpoint, suite, host) =>
      if !taken || host.None? then Done(req, BadRequest) else Checking(req, endpoint, suite, host.value)
    case _ =>
      if !ValidCommon(req.common) || !FieldsOk(req) then Done(req, BadRequest)
      else if req.host.None? then Done(req, BadEvidence)
      else Checking(req, NormalizeEndpoint(req.common.endpoint), req.common.suite, req.host.value)
  }

  /** Evidence and confirmation, once the host is trusted. */
  function Confirm(req: Request, io: Io): Stage {
    if IsSigning(req) && !EvidenceOk(req) then Done(req, BadEvidence)
    else
      var action := ActionOf(req);
      if action.None? then Done(req, Released)
      else match io.actionAnswer
        case Unanswered(error) => Done(req, ConfirmationFailed(error))
        case Answered(yes) => if yes then Recording(req, action.value) else Done(req, Declined)
  }

  function Advance(env: Env, w: World, stage: Stage, io: Io): (Stage, World) {
    match stage
    case Entered(req) => (Enter(req), w)
    case Checking(req, alias, suite, fp) =>
      var (checked, pins) := CheckPin(env.json, w.pins, alias, suite, fp, io.trustAnswer, io.pinDiskOk);
      if checked.Refused? then (Done(req, HostRefused(checked.error)), w)
      else
        var event := TrustEvent(alias, suite, fp, checked.outcome);
        (if event.Some? then RecordingTrust(req, alias, suite, fp, event.value) else Vouched(req), w.(pins := pins))
    case RecordingTrust(req, alias, suite, fp, event) =>
      var (ok, w') := Record(env, w, event, io.trustTime, io.trustDiskOk);
      (if ok then Vouched(req) else RollingBack(req, alias, suite), w')
    case RollingBack(req, alias, suite) =>
      (Done(req, HostUnrecorded), w.(pins := ForgetPin(env.json, w.pins, alias, suite, io.rollbackDiskOk).1))
    case Vouched(req) => (Confirm(req, io), w)
    case Recording(req, action) =>
      var (ok, w') := Record(env, w, action, io.actionTime, io.actionDiskOk);
      (if ok then Recorded(req) else Done(req, ActionUnrecorded), w')
    case Recorded(req) => (Done(req, Released), w)
    case Done(_, _) => (stage, w)
  }

  // Alone, a request is the sequential handler.

  function StagesLeft(stage: Stage): nat {
    match stage
    case Entered(_) => 7
    case Checking(_, _, _, _) => 6
    case RecordingTrust(_, _, _, _, _) => 5
    case RollingBack(_, _, _) => 4
    case Vouched(_) => 4
    case Recording(_, _) => 2
    case Recorded(_) => 1
    case Done(_, _) => 0
  }

  /** Advance until answered, with nothing in between. */
  function Alone(env: Env, w: World, stage: Stage, io: Io): (Response, World)
    decreases StagesLeft(stage)
  {
    if stage.Done? then (stage.response, w)
    else
      var (next, w') := Advance(env, w, stage, io);
      Alone(env, w', next, io)
  }

  lemma RecordAlone(env: Env, w: World, req: Request, action: Log.Event, io: Io)
    ensures Alone(env, w, Recording(req, action), io) == RecordAndRelease(env, w, action, io)
  {
    var (next, w') := Advance(env, w, Recording(req, action), io);
    if next.Recorded? {
      assert Alone(env, w', Recorded(req), io) == Alone(env, w', Done(req, Released), io);
    }
    assert Alone(env, w, Recording(req, action), io) == Alone(env, w', next, io);
  }

  lemma ConfirmAlone(env: Env, w: World, req: Request, io: Io)
    requires IsSigning(req) || req.HandshakeFinish?
    ensures Alone(env, w, Vouched(req), io)
            == AfterTrust(env, w, Passed(Matched), IsSigning(req) ==> EvidenceOk(req), ActionOf(req), io)
  {
    var next := Confirm(req, io);
    assert Alone(env, w, Vouched(req), io) == Alone(env, w, next, io);
    if next.Recording? {
      RecordAlone(env, w, req, next.action, io);
    }
  }

  lemma CheckAlone(env: Env, w: World, req: Request, alias: string, suite: string, fp: Fingerprint, io: Io)
    requires IsSigning(req) || req.HandshakeFinish?
    ensures var (trust, w') := CheckTrust(env, w, alias, suite, fp, io);
            Alone(env, w, Checking(req, alias, suite, fp), io)
            == AfterTrust(env, w', trust, IsSigning(req) ==> EvidenceOk(req), ActionOf(req), io)
  {
    var (next, w1) := Advance(env, w, Checking(req, alias, suite, fp), io);
    assert Alone(env, w, Checking(req, alias, suite, fp), io) == Alone(env, w1, next, io);
    if next.Vouched? {
      ConfirmAlone(env, w1, req, io);
    } else if next.RecordingTrust? {
      RecordTrustAlone(env, w1, next, io);
    }
  }

  lemma RecordTrustAlone(env: Env, w: World, stage: Stage, io: Io)
    requires stage.RecordingTrust? && (IsSigning(stage.req) || stage.req.HandshakeFinish?)
    ensures var (ok, w') := RecordOrForget(env, w, stage.alias, stage.suite, stage.event, io);
            Alone(env, w, stage, io)
            == AfterTrust(env, w', if ok then Passed(Matched) else Unrecorded, IsSigning(stage.req) ==> EvidenceOk(stage.req), ActionOf(stage.req), io)
  {
    var (next, w1) := Advance(env, w, stage, io);
    assert Alone(env, w, stage, io) == Alone(env, w1, next, io);
    if next.Vouched? {
      ConfirmAlone(env, w1, stage.req, io);
    } else {
      var (last, w2) := Advance(env, w1, next, io);
      assert Alone(env, w1, next, io) == Alone(env, w2, last, io);
    }
  }

  /** Served with nothing in between, a request has the sequential handler's answer and effect. */
  lemma AloneIsSequential(env: Env, w: World, req: Request, io: Io)
    ensures Alone(env, w, Entered(req), io) == Handle(env, w, req, io)
  {
    var next := Enter(req);
    assert Alone(env, w, Entered(req), io) == Alone(env, w, next, io);
    match next
    case Recording(_, action) => RecordAlone(env, w, req, action, io);
    case Checking(_, alias, suite, fp) => CheckAlone(env, w, req, alias, suite, fp, io);
    case _ =>
  }

  // Requests in flight together.

  /** The stores, and every request received so far with its stage. */
  datatype Server = Server(world: World, requests: seq<Stage>)

  /** A request comes in, or request `i` takes its next step. */
  datatype Input = Receive(req: Request) | Serve(i: nat, io: Io)

  function Step(env: Env, s: Server, input: Input): Server {
    match input
    case Receive(req) => s.(requests := s.requests + [Entered(req)])
    case Serve(i, io) =>
      if i >= |s.requests| then s
      else
        var (next, w) := Advance(env, s.world, s.requests[i], io);
        Server(w, s.requests[i := next])
  }

  function Stepper(env: Env): (Server, Input) -> Server {
    (s: Server, input: Input) => Step(env, s, input)
  }

  function ServeTimes(env: Env, s: Server, i: nat, io: Io, k: nat): Server
    decreases k
  {
    if k == 0 then s else ServeTimes(env, Step(env, s, Serve(i, io)), i, io, k - 1)
  }

  lemma {:induction false} ServedToTheEnd(env: Env, s: Server, i: nat, io: Io, k: nat)
    requires i < |s.requests| && StagesLeft(s.requests[i]) <= k
    ensures var (r, w) := Alone(env, s.world, s.requests[i], io);
            ServeTimes(env, s, i, io, k) == Server(w, s.requests[i := Done(s.requests[i].req, r)])
    decreases k
  {
    if k > 0 {
      var (next, w) := Advance(env, s.world, s.requests[i], io);
      var s' := Step(env, s, Serve(i, io));
      ServedToTheEnd(env, s', i, io, k - 1);
      assert s'.requests[i := Done(next.req, Alone(env, w, next, io).0)] == s.requests[i := Done(next.req, Alone(env, w, next, io).0)];
    } else {
      assert s.requests[i := s.requests[i]] == s.requests;
    }
  }

  /** A request that comes in and is served seven times in a row has the sequential handler's answer
      and effect, and touches no other request. */
  lemma ReceivedIsHandled(env: Env, s: Server, req: Request, io: Io)
    ensures var (r, w) := Handle(env, s.world, req, io);
            ServeTimes(env, Step(env, s, Receive(req)), |s.requests|, io, 7) == Server(w, s.requests + [Done(req, r)])
  {
    var t := Step(env, s, Receive(req));
    ServedToTheEnd(env, t, |s.requests|, io, 7);
    AloneIsSequential(env, s.world, req, io);
    assert t.requests[|s.requests| := Done(req, Handle(env, s.world, req, io).0)] == s.requests + [Done(req, Handle(env, s.world, req, io).0)];
  }

  /** What the stage says about the request. */
  predicate StageOk(stage: Stage) {
    match stage
    case Checking(req, _, _, _) => IsSigning(req) || req.HandshakeFinish?
    case RecordingTrust(req, alias, suite, fp, event) =>
      (IsSigning(req) || req.HandshakeFinish?) && Names(event, Key(alias, suite), fp)
    case RollingBack(req, _, _) => IsSigning(req) || req.HandshakeFinish?
    case Vouched(req) => IsSigning(req) || req.HandshakeFinish?
    case Recording(req, action) => ActionOf(req) == Some(action)
    case Recorded(req) => ActionOf(req).Some?
    case _ => true
  }

  predicate StagesOk(requests: seq<Stage>) {
    forall stage | stage in requests :: StageOk(stage)
  }

  // Released answers against audit records, counted event by event.

  /** How often the log holds the event. */
  function Records(e: Log.Event, entries: seq<Log.Entry>): nat {
    if entries == [] then 0
    else Records(e, entries[..|entries| - 1]) + if entries[|entries| - 1].event == e then 1 else 0
  }

  lemma RecordCounts(env: Env, w: World, event: Log.Event, time: int, diskOk: bool, e: Log.Event)
    ensures var (ok, w') := Record(env, w, event, time, diskOk);
            Records(e, w'.log.entries) == Records(e, w.log.entries) + if ok && event == e then 1 else 0
  {
    var (ok, w') := Record(env, w, event, time, diskOk);
    assert ok ==> w'.log.entries[..|w.log.entries|] == w.log.entries;
  }

  /** The answer is released and owes the event. */
  predicate HasReleased(stage: Stage, e: Log.Event) {
    stage.Done? && stage.response.Released? && ActionOf(stage.req) == Some(e)
  }

  /** The event is recorded and the answer about to be released. */
  predicate AboutToRelease(stage: Stage, e: Log.Event) {
    stage.Recorded? && ActionOf(stage.req) == Some(e)
  }

  function Credited(stage: Stage, e: Log.Event): nat {
    if HasReleased(stage, e) || AboutToRelease(stage, e) then 1 else 0
  }

  function ReleaseCount(requests: seq<Stage>, e: Log.Event): nat {
    if requests == [] then 0
    else ReleaseCount(requests[..|requests| - 1], e) + if HasReleased(requests[|requests| - 1], e) then 1 else 0
  }

  function CreditCount(requests: seq<Stage>, e: Log.Event): nat {
    if requests == [] then 0
    else CreditCount(requests[..|requests| - 1], e) + Credited(requests[|requests| - 1], e)
  }

  lemma {:induction false} CreditUpdate(requests: seq<Stage>, i: nat, stage: Stage, e: Log.Event)
    requires i < |requests|
    ensures CreditCount(requests[i := stage], e) + Credited(requests[i], e) == CreditCount(requests, e) + Credited(stage, e)
  {
    var n := |requests| - 1;
    if i == n {
      assert requests[i := stage][..n] == requests[..n];
    } else {
      CreditUpdate(requests[..n], i, stage, e);
      assert requests[i := stage][..n] == requests[..n][i := stage];
    }
  }

  lemma {:induction false} ReleasesAreCredited(requests: seq<Stage>, e: Log.Event)
    ensures ReleaseCount(requests, e) <= CreditCount(requests, e)
    ensures (forall stage | stage in requests :: !AboutToRelease(stage, e)) ==> ReleaseCount(requests, e) == CreditCount(requests, e)
  {
    if requests != [] {
      var n := |requests| - 1;
      ReleasesAreCredited(requests[..n], e);
      assert requests[n] in requests;
    }
  }

  lemma EnterHasNoCredit(req: Request, e: Log.Event)
    ensures Credited(Enter(req), e) == 0
  {
  }

  lemma ConfirmHasNoCredit(req: Request, io: Io, e: Log.Event)
    ensures Credited(Confirm(req, io), e) == 0
  {
  }

  lemma RecordingCredits(env: Env, w: World, stage: Stage, io: Io, e: Log.Event)
    requires StageOk(stage) && !IsTrustEvent(e) && (stage.Recording? || stage.RecordingTrust?)
    ensures var (next, w') := Advance(env, w, stage, io);
            Records(e, w'.log.entries) == Records(e, w.log.entries) + Credited(next, e)
  {
    if stage.Recording? {
      RecordCounts(env, w, stage.action, io.actionTime, io.actionDiskOk, e);
    } else {
      RecordCounts(env, w, stage.event, io.trustTime, io.trustDiskOk, e);
    }
  }

  lemma AdvanceCredits(env: Env, w: World, stage: Stage, io: Io, e: Log.Event)
    requires StageOk(stage) && !IsTrustEvent(e)
    ensures var (next, w') := Advance(env, w, stage, io);
            Records(e, w'.log.entries) + Credited(stage, e) == Records(e, w.log.entries) + Credited(next, e)
  {
    if stage.Recording? || stage.RecordingTrust? {
      RecordingCredits(env, w, stage, io, e);
    } else {
      EnterHasNoCredit(stage.req, e);
      ConfirmHasNoCredit(stage.req, io, e);
    }
  }

  lemma AdvanceKeepsOk(env: Env, w: World, stage: Stage, io: Io)
    requires StageOk(stage)
    ensures StageOk(Advance(env, w, stage, io).0)
  {
  }

  /** The log holds the event as often as `base` says, and once for each request credited with it. */
  predicate Balanced(e: Log.Event, base: nat, s: Server) {
    StagesOk(s.requests) && Records(e, s.world.log.entries) == base + CreditCount(s.requests, e)
  }

  lemma StepKeepsBalance(env: Env, e: Log.Event, base: nat, s: Server, input: Input)
    requires Balanced(e, base, s) && !IsTrustEvent(e)
    ensures Balanced(e, base, Step(env, s, input))
  {
    match input
    case Receive(req) => assert (s.requests + [Entered(req)])[..|s.requests|] == s.requests;
    case Serve(i, io) =>
      if i < |s.requests| {
        ServeKeepsBalance(env, e, base, s, i, io);
      }
  }

  lemma ServeKeepsBalance(env: Env, e: Log.Event, base: nat, s: Server, i: nat, io: Io)
    requires Balanced(e, base, s) && !IsTrustEvent(e) && i < |s.requests|
    ensures var (next, w) := Advance(env, s.world, s.requests[i], io); Balanced(e, base, Server(w, s.requests[i := next]))
  {
    var next := Advance(env, s.world, s.requests[i], io).0;
    assert StageOk(s.requests[i]);
    AdvanceKeepsOk(env, s.world, s.requests[i], io);
    AdvanceCredits(env, s.world, s.requests[i], io, e);
    CreditUpdate(s.requests, i, next, e);
  }

  /** In every interleaving of whole requests, at every point and for every event, the log holds at
      least one record for each released answer that owes the event, beyond those it held at first;
      and exactly that many whenever no request is between recording it and answering. */
  lemma InterleavedReleasesAreAudited(env: Env, e: Log.Event, base: nat, s: Server, inputs: seq<Input>, n: nat)
    requires Balanced(e, base, s) && !IsTrustEvent(e) && n <= |inputs|
    ensures var now := Runs.At(Stepper(env), s, inputs, n);
            && base + ReleaseCount(now.requests, e) <= Records(e, now.world.log.entries)
            && ((forall stage | stage in now.requests :: !AboutToRelease(stage, e)) ==>
                  base + ReleaseCount(now.requests, e) == Records(e, now.world.log.entries))
  {
    var inv := (x: Server) => Balanced(e, base, x);
    forall x, input | inv(x) ensures inv(Stepper(env)(x, input)) {
      StepKeepsBalance(env, e, base, x, input);
    }
    Runs.Always(Stepper(env), inv, s, inputs, n);
    ReleasesAreCredited(Runs.At(Stepper(env), s, inputs, n).requests, e);
  }

  // The trust checks of the requests are those of `TrustInterleaving`.

  function PhaseOf(stage: Stage): Option<Trust.Phase> {
    match stage
    case Checking(_, alias, suite, fp) => Some(Trust.Checking(alias, suite, fp))
    case RecordingTrust(_, alias, suite, fp, event) => Some(Trust.Recording(alias, suite, fp, event))
    case RollingBack(_, alias, suite) => Some(Trust.RollingBack(alias, suite))
    case _ => None
  }

  function Tasks(requests: seq<Stage>): map<nat, Trust.Phase> {
    map i: nat | i < |requests| && PhaseOf(requests[i]).Some? :: PhaseOf(requests[i]).value
  }

  function View(s: Server, lost: set<string>): Trust.Shared {
    Trust.Shared(s.world, Tasks(s.requests), lost)
  }

  /** The step of the trust check, or the recording, that this step is, if any. */
  function ActOf(s: Server, input: Input): Option<Trust.Act> {
    if input.Receive? || input.i >= |s.requests| then None
    else
      var i, io := input.i, input.io;
      match s.requests[i]
      case Entered(req) =>
        var next := Enter(req);
        if next.Checking? then Some(Trust.Arrive(i, next.alias, next.suite, next.fp)) else None
      case Checking(_, _, _, _) => Some(Trust.DoCheck(i, io.trustAnswer, io.pinDiskOk))
      case RecordingTrust(_, _, _, _, _) => Some(Trust.DoRecord(i, io.trustTime, io.trustDiskOk))
      case RollingBack(_, _, _) => Some(Trust.DoRollback(i, io.rollbackDiskOk))
      case Recording(_, action) => Some(Trust.OtherRecord(action, io.actionTime, io.actionDiskOk))
      case _ => None
  }

  lemma TasksUpdate(requests: seq<Stage>, i: nat, next: Stage)
    requires i < |requests|
    ensures Tasks(requests[i := next])
            == if PhaseOf(next).Some? then Tasks(requests)[i := PhaseOf(next).value] else Tasks(requests) - {i}
  {
  }

  /** What a step of a stage is for the trust check it belongs to. */
  lemma AdvanceRefines(env: Env, s: Server, i: nat, io: Io, lost: set<string>)
    requires i < |s.requests| && ActOf(s, Serve(i, io)).Some?
    ensures var (next, w) := Advance(env, s.world, s.requests[i], io);
            var after := Trust.Step(env, View(s, lost), ActOf(s, Serve(i, io)).value);
            && after.world == w
            && after.tasks == if PhaseOf(next).Some? then Tasks(s.requests)[i := PhaseOf(next).value] else Tasks(s.requests) - {i}
  {
    match s.requests[i]
    case Entered(_) =>
    case Checking(_, _, _, _) => CheckRefines(env, s, i, io, lost);
    case RecordingTrust(_, _, _, _, _) => RecordRefines(env, s, i, io, lost);
    case RollingBack(_, _, _) =>
    case Recording(_, _) => assert Tasks(s.requests) - {i} == Tasks(s.requests);
    case _ =>
  }

  lemma CheckRefines(env: Env, s: Server, i: nat, io: Io, lost: set<string>)
    requires i < |s.requests| && s.requests[i].Checking?
    ensures var (next, w) := Advance(env, s.world, s.requests[i], io);
            var after := Trust.Step(env, View(s, lost), Trust.DoCheck(i, io.trustAnswer, io.pinDiskOk));
            && after.world == w
            && after.tasks == if PhaseOf(next).Some? then Tasks(s.requests)[i := PhaseOf(next).value] else Tasks(s.requests) - {i}
  {
    assert Tasks(s.requests)[i] == PhaseOf(s.requests[i]).value;
  }

  lemma RecordRefines(env: Env, s: Server, i: nat, io: Io, lost: set<string>)
    requires i < |s.requests| && s.requests[i].RecordingTrust?
    ensures var (next, w) := Advance(env, s.world, s.requests[i], io);
            var after := Trust.Step(env, View(s, lost), Trust.DoRecord(i, io.trustTime, io.trustDiskOk));
            && after.world == w
            && after.tasks == if PhaseOf(next).Some? then Tasks(s.requests)[i := PhaseOf(next).value] else Tasks(s.requests) - {i}
  {
    assert Tasks(s.requests)[i] == PhaseOf(s.requests[i]).value;
  }

  lemma StepRefines(env: Env, s: Server, input: Input, lost: set<string>)
    ensures match ActOf(s, input)
            case None => View(Step(env, s, input), lost) == View(s, lost)
            case Some(act) => var after := Trust.Step(env, View(s, lost), act); View(Step(env, s, input), after.lost) == after
  {
    if input.Receive? {
      assert Tasks(s.requests + [Entered(input.req)]) == Tasks(s.requests);
    } else if input.i < |s.requests| {
      var (next, w) := Advance(env, s.world, s.requests[input.i], input.io);
      TasksUpdate(s.requests, input.i, next);
      if ActOf(s, input).Some? {
        AdvanceRefines(env, s, input.i, input.io, lost);
      } else {
        StepAside(env, s, input.i, input.io);
      }
    }
  }

  lemma StepAside(env: Env, s: Server, i: nat, io: Io)
    requires i < |s.requests| && ActOf(s, Serve(i, io)).None?
    ensures var (next, w) := Advance(env, s.world, s.requests[i], io);
            w == s.world && PhaseOf(next).None? && Tasks(s.requests) - {i} == Tasks(s.requests)
  {
  }

  lemma {:induction false} AtPrefix<S, T>(step: (S, T) -> S, s: S, inputs: seq<T>, more: seq<T>, n: nat)
    requires n <= |inputs|
    ensures Runs.At(step, s, inputs + more, n) == Runs.At(step, s, inputs, n)
  {
    if n > 0 {
      AtPrefix(step, s, inputs, more, n - 1);
    }
  }

  /** Every interleaving of whole requests is, seen from the stores and the trust checks, an
      interleaving of trust checks and other recordings. */
  lemma {:induction false} InterleavingRefines(env: Env, s: Server, inputs: seq<Input>, n: nat, lost: set<string>)
    returns (acts: seq<Trust.Act>, left: set<string>)
    requires n <= |inputs|
    ensures Runs.At(Trust.Stepper(env), View(s, lost), acts, |acts|) == View(Runs.At(Stepper(env), s, inputs, n), left)
  {
    acts, left := [], lost;
    if n > 0 {
      acts, left := InterleavingRefines(env, s, inputs, n - 1, lost);
      acts, left := OneMore(env, s, Runs.At(Stepper(env), s, inputs, n - 1), inputs[n - 1], acts, lost, left);
    }
  }

  lemma OneMore(env: Env, start: Server, s: Server, input: Input, acts: seq<Trust.Act>, lost: set<string>, left: set<string>)
    returns (acts': seq<Trust.Act>, left': set<string>)
    requires Runs.At(Trust.Stepper(env), View(start, lost), acts, |acts|) == View(s, left)
    ensures Runs.At(Trust.Stepper(env), View(start, lost), acts', |acts'|) == View(Step(env, s, input), left')
  {
    acts', left' := acts, left;
    StepRefines(env, s, input, left);
    var act := ActOf(s, input);
    if act.Some? {
      AtPrefix(Trust.Stepper(env), View(start, lost), acts, [act.value], |acts|);
      acts', left' := acts + [act.value], Trust.Step(env, View(s, left), act.value).lost;
      assert Runs.At(Trust.Stepper(env), View(start, lost), acts', |acts'|) == Trust.Step(env, View(s, left), act.value);
    }
  }

  /** So both stores stay intact and reloadable, and every pin stays accounted for. */
  lemma InterleavedRequestsAreSound(env: Env, s: Server, inputs: seq<Input>, n: nat, lost: set<string>) returns (left: set<string>)
    requires Log.Sound(env.platform) && RoundTrips(env.json) && Trust.StoresSound(env, s.world)
    requires Trust.Inv(View(s, lost)) && n <= |inputs|
    ensures var now := Runs.At(Stepper(env), s, inputs, n); Trust.StoresSound(env, now.world) && Trust.AllAccounted(View(now, left))
  {
    var acts;
    acts, left := InterleavingRefines(env, s, inputs, n, lost);
    Trust.InterleavingsKeepStoresSound(env, View(s, lost), acts, |acts|);
    Trust.EveryPinAccountedFor(env, View(s, lost), acts, |acts|);
  }

  // The exact conditions, for whole requests.

  /** The step does what `ok` asks of the step of the trust check it is, if any. */
  predicate ActAllowed(ok: (Trust.Shared, Trust.Act) -> bool, s: Server, input: Input) {
    ActOf(s, input).Some? ==> ok(View(s, {}), ActOf(s, input).value)
  }

  /** `good` does not look at the slots lost, and a trust step keeps it exactly when `ok`. */
  ghost predicate Exact(env: Env, ok: (Trust.Shared, Trust.Act) -> bool, good: Trust.Shared -> bool) {
    && (forall x: Trust.Shared, lost :: good(x) <==> good(x.(lost := lost)))
    && (forall x, act :: good(x) ==> (good(Trust.Step(env, x, act)) <==> ok(x, act)))
  }

  lemma StepExact(env: Env, ok: (Trust.Shared, Trust.Act) -> bool, good: Trust.Shared -> bool, s: Server, input: Input)
    requires Exact(env, ok, good) && good(View(s, {}))
    ensures good(View(Step(env, s, input), {})) <==> ActAllowed(ok, s, input)
  {
    StepRefines(env, s, input, {});
    if ActOf(s, input).Some? {
      var after := Trust.Step(env, View(s, {}), ActOf(s, input).value);
      assert View(Step(env, s, input), {}) == after.(lost := {});
    }
  }

  function AllowedStep(ok: (Trust.Shared, Trust.Act) -> bool): (Server, Input) -> bool {
    (s: Server, input: Input) => ActAllowed(ok, s, input)
  }

  function GoodView(good: Trust.Shared -> bool): Server -> bool {
    (s: Server) => good(View(s, {}))
  }

  lemma ExactForRequests(env: Env, ok: (Trust.Shared, Trust.Act) -> bool, good: Trust.Shared -> bool,
                         s: Server, inputs: seq<Input>, n: nat)
    requires Exact(env, ok, good) && good(View(s, {})) && n <= |inputs|
    ensures Runs.Allowed(Stepper(env), AllowedStep(ok), s, inputs, n) <==> Runs.Throughout(Stepper(env), GoodView(good), s, inputs, n)
  {
    forall x, input | GoodView(good)(x) ensures GoodView(good)(Stepper(env)(x, input)) <==> AllowedStep(ok)(x, input) {
      StepExact(env, ok, good, x, input);
    }
    Runs.InvariantIff(Stepper(env), AllowedStep(ok), GoodView(good), s, inputs, n);
  }

  /** Whole requests never leave a pin without record or task exactly when no failed rollback does. */
  lemma RequestsLeaveNoGapIff(env: Env, s: Server, inputs: seq<Input>, n: nat)
    requires Trust.NoGap(View(s, {})) && n <= |inputs|
    ensures Runs.Allowed(Stepper(env), AllowedStep(Trust.FillsGaps(env)), s, inputs, n)
            <==> Runs.Throughout(Stepper(env), GoodView(Trust.WithoutGap()), s, inputs, n)
  {
    forall x, act | Trust.WithoutGap()(x) ensures Trust.WithoutGap()(Trust.Step(env, x, act)) <==> Trust.FillsGaps(env)(x, act) {
      Trust.StepKeepsNoGap(env, x, act);
    }
    ExactForRequests(env, Trust.FillsGaps(env), Trust.WithoutGap(), s, inputs, n);
  }

  /** Whole requests keep every pin in a free slot the last one logged exactly when each of their
      steps settles its slot. */
  lemma RequestsAgreeIff(env: Env, s: Server, inputs: seq<Input>, n: nat)
    requires Order.Settled(View(s, {})) && n <= |inputs|
    ensures Runs.Allowed(Stepper(env), AllowedStep(Order.SettlingStep(env)), s, inputs, n)
            <==> Runs.Throughout(Stepper(env), GoodView(Order.IsSettled()), s, inputs, n)
  {
    forall x, act | Order.IsSettled()(x) ensures Order.IsSettled()(Trust.Step(env, x, act)) <==> Order.SettlingStep(env)(x, act) {
      Order.StepSettles(env, x, act);
    }
    forall x: Trust.Shared, lost ensures Order.IsSettled()(x) <==> Order.IsSettled()(x.(lost := lost)) {
      Order.LostDoesNotMatter(x, lost);
    }
    ExactForRequests(env, Order.SettlingStep(env), Order.IsSettled(), s, inputs, n);
  }
}
