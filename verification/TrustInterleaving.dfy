/** Concurrent host-trust checks. Every section that holds a lock is one atomic
    step, and steps of different requests interleave freely:
    check the pin, record the decision, and roll the pin back if recording failed. */
module TrustInterleaving {
  import opened Bytes
  import opened HostTrust
  import opened Agent
  import Log = AuditLog
  import Runs

  /** Where a request stands between two of its locked sections. */
  datatype Phase =
    | Checking(alias: string, suite: string, fp: Fingerprint)
    | Recording(alias: string, suite: string, fp: Fingerprint, event: Log.Event)
    | RollingBack(alias: string, suite: string)

  /** The shared stores, the requests in flight, and the slots that still hold what a failed
      rollback write left there. */
  datatype Shared = Shared(world: World, tasks: map<nat, Phase>, lost: set<string>)

  /** One scheduled step. A step that does not fit the state does nothing. */
  datatype Act =
    | Arrive(id: nat, alias: string, suite: string, fp: Fingerprint)
    | DoCheck(id: nat, answer: Answer, diskOk: bool)
    | DoRecord(id: nat, time: int, diskOk: bool)
    | DoRollback(id: nat, diskOk: bool)
    | OtherRecord(event: Log.Event, time: int, diskOk: bool)

  function CheckStep(env: Env, s: Shared, id: nat, p: Phase, answer: Answer, diskOk: bool): Shared
    requires p.Checking?
  {
    var (checked, pins) := CheckPin(env.json, s.world.pins, p.alias, p.suite, p.fp, answer, diskOk);
    var event := if checked.Trusted? then TrustEvent(p.alias, p.suite, p.fp, checked.outcome) else None;
    Shared(s.world.(pins := pins),
           if event.Some? then s.tasks[id := Recording(p.alias, p.suite, p.fp, event.value)] else s.tasks - {id},
           if event.Some? then s.lost - {Key(p.alias, p.suite)} else s.lost)
  }

  function RecordStep(env: Env, s: Shared, id: nat, p: Phase, time: int, diskOk: bool): Shared
    requires p.Recording?
  {
    var (ok, w) := Record(env, s.world, p.event, time, diskOk);
    Shared(w, if ok then s.tasks - {id} else s.tasks[id := RollingBack(p.alias, p.suite)], s.lost)
  }

  function RollbackStep(env: Env, s: Shared, id: nat, p: Phase, diskOk: bool): Shared
    requires p.RollingBack?
  {
    var (ok, pins) := ForgetPin(env.json, s.world.pins, p.alias, p.suite, diskOk);
    Shared(s.world.(pins := pins), s.tasks - {id},
           if ok then s.lost - {Key(p.alias, p.suite)} else s.lost + {Key(p.alias, p.suite)})
  }

  function Step(env: Env, s: Shared, act: Act): Shared {
    match act
    case Arrive(id, alias, suite, fp) => if id in s.tasks then s else s.(tasks := s.tasks[id := Checking(alias, suite, fp)])
    case DoCheck(id, answer, diskOk) =>
      if id in s.tasks && s.tasks[id].Checking? then CheckStep(env, s, id, s.tasks[id], answer, diskOk) else s
    case DoRecord(id, time, diskOk) =>
      if id in s.tasks && s.tasks[id].Recording? then RecordStep(env, s, id, s.tasks[id], time, diskOk) else s
    case DoRollback(id, diskOk) =>
      if id in s.tasks && s.tasks[id].RollingBack? then RollbackStep(env, s, id, s.tasks[id], diskOk) else s
    case OtherRecord(event, time, diskOk) => s.(world := Record(env, s.world, event, time, diskOk).1)
  }

  function Stepper(env: Env): (Shared, Act) -> Shared {
    (s: Shared, act: Act) => Step(env, s, act)
  }

  /** A slot is lost from the moment a rollback write fails for it until its next change. */
  lemma LostUntilChanged(env: Env, s: Shared, act: Act, k: string)
    ensures var s' := Step(env, s, act);
            && (LosesRollback(env, s, act) ==>
                  (k in s'.lost <==> k in s.lost || k == Key(s.tasks[act.id].alias, s.tasks[act.id].suite)) && s'.world == s.world)
            && (!LosesRollback(env, s, act) && k in s'.lost ==> k in s.lost && At(s'.world.pins.pins, k) == At(s.world.pins.pins, k))
            && (!LosesRollback(env, s, act) && k in s.lost && At(s'.world.pins.pins, k) == At(s.world.pins.pins, k) && k in s'.world.pins.pins ==>
                  k in s'.lost)
  {
  }

  function At(pins: Pins, k: string): Option<Fingerprint> {
    if k in pins then Some(pins[k]) else None
  }

  predicate Audited(entries: seq<Log.Entry>, key: string, fp: Fingerprint) {
    exists i | 0 <= i < |entries| :: Names(entries[i].event, key, fp)
  }

  /** The task is about to record this pin, or to remove whatever is pinned there. */
  predicate AnswersFor(p: Phase, key: string, fp: Fingerprint) {
    || (p.Recording? && Names(p.event, key, fp))
    || (p.RollingBack? && Key(p.alias, p.suite) == key)
  }

  predicate InFlight(tasks: map<nat, Phase>, key: string, fp: Fingerprint) {
    exists id | id in tasks :: AnswersFor(tasks[id], key, fp)
  }

  predicate Accounted(s: Shared, key: string, fp: Fingerprint) {
    Audited(s.world.log.entries, key, fp) || InFlight(s.tasks, key, fp) || key in s.lost
  }

  predicate AllAccounted(s: Shared) {
    forall k | k in s.world.pins.pins :: Accounted(s, k, s.world.pins.pins[k])
  }

  /** A recording task's event names the task's own slot and fingerprint. */
  predicate TasksWellFormed(s: Shared) {
    forall id | id in s.tasks && s.tasks[id].Recording? ::
      Names(s.tasks[id].event, Key(s.tasks[id].alias, s.tasks[id].suite), s.tasks[id].fp)
  }

  lemma RecordKeepsAudited(env: Env, w: World, event: Log.Event, time: int, diskOk: bool, key: string, fp: Fingerprint)
    ensures var (ok, w') := Record(env, w, event, time, diskOk);
            && w'.pins == w.pins
            && (Audited(w.log.entries, key, fp) || (ok && Names(event, key, fp)) ==> Audited(w'.log.entries, key, fp))
  {
    var (ok, w') := Record(env, w, event, time, diskOk);
    var n := |w.log.entries|;
    if ok {
      if i :| 0 <= i < n && Names(w.log.entries[i].event, key, fp) {
        assert w'.log.entries[i] == w'.log.entries[..n][i];
      } else if Names(event, key, fp) {
        assert Names(w'.log.entries[n].event, key, fp);
      }
    }
  }

  /** Dropping or replacing task `id` only stops covering what `id` alone covered. */
  lemma OthersStayInFlight(tasks: map<nat, Phase>, id: nat, next: Option<Phase>, key: string, fp: Fingerprint)
    requires InFlight(tasks, key, fp)
    requires id in tasks ==> !AnswersFor(tasks[id], key, fp) || (next.Some? && AnswersFor(next.value, key, fp))
    ensures InFlight(if next.Some? then tasks[id := next.value] else tasks - {id}, key, fp)
  {
    var after := if next.Some? then tasks[id := next.value] else tasks - {id};
    var j :| j in tasks && AnswersFor(tasks[j], key, fp);
    if j != id {
      assert j in after && after[j] == tasks[j];
    } else {
      assert id in after && AnswersFor(after[id], key, fp);
    }
  }

  lemma CheckStepAccounts(env: Env, s: Shared, id: nat, answer: Answer, diskOk: bool, k: string)
    requires AllAccounted(s) && id in s.tasks && s.tasks[id].Checking?
    requires k in CheckStep(env, s, id, s.tasks[id], answer, diskOk).world.pins.pins
    ensures var s' := CheckStep(env, s, id, s.tasks[id], answer, diskOk); Accounted(s', k, s'.world.pins.pins[k])
  {
    var p := s.tasks[id];
    var s' := CheckStep(env, s, id, p, answer, diskOk);
    var fp := s'.world.pins.pins[k];
    var checked := CheckPin(env.json, s.world.pins, p.alias, p.suite, p.fp, answer, diskOk).0;
    if checked.Trusted? && checked.outcome != Matched && k == Key(p.alias, p.suite) {
      assert AnswersFor(s'.tasks[id], k, fp);
    } else {
      assert Accounted(s, k, fp);
      if InFlight(s.tasks, k, fp) {
        OthersStayInFlight(s.tasks, id, if id in s'.tasks then Some(s'.tasks[id]) else None, k, fp);
      }
    }
  }

  lemma RecordStepAccounts(env: Env, s: Shared, id: nat, time: int, diskOk: bool, k: string)
    requires AllAccounted(s) && TasksWellFormed(s) && id in s.tasks && s.tasks[id].Recording? && k in s.world.pins.pins
    ensures Accounted(RecordStep(env, s, id, s.tasks[id], time, diskOk), k, s.world.pins.pins[k])
  {
    var p, fp := s.tasks[id], s.world.pins.pins[k];
    var s' := RecordStep(env, s, id, p, time, diskOk);
    RecordKeepsAudited(env, s.world, p.event, time, diskOk, k, fp);
    assert Accounted(s, k, fp);
    if InFlight(s.tasks, k, fp) && !Audited(s'.world.log.entries, k, fp) {
      OthersStayInFlight(s.tasks, id, if id in s'.tasks then Some(s'.tasks[id]) else None, k, fp);
    }
  }

  lemma RollbackStepAccounts(env: Env, s: Shared, id: nat, diskOk: bool, k: string)
    requires AllAccounted(s) && id in s.tasks && s.tasks[id].RollingBack?
    requires k in RollbackStep(env, s, id, s.tasks[id], diskOk).world.pins.pins
    ensures var s' := RollbackStep(env, s, id, s.tasks[id], diskOk); Accounted(s', k, s'.world.pins.pins[k])
  {
    var s' := RollbackStep(env, s, id, s.tasks[id], diskOk);
    var fp := s'.world.pins.pins[k];
    assert Accounted(s, k, fp);
    if InFlight(s.tasks, k, fp) && k !in s'.lost {
      OthersStayInFlight(s.tasks, id, None, k, fp);
    }
  }

  predicate Inv(s: Shared) {
    AllAccounted(s) && TasksWellFormed(s)
  }

  lemma StepKeepsInv(env: Env, s: Shared, act: Act)
    requires Inv(s)
    ensures Inv(Step(env, s, act))
  {
    var s' := Step(env, s, act);
    forall k | k in s'.world.pins.pins ensures Accounted(s', k, s'.world.pins.pins[k]) {
      match act
      case Arrive(id, alias, suite, fp) =>
        assert Accounted(s, k, s.world.pins.pins[k]);
        if InFlight(s.tasks, k, s.world.pins.pins[k]) && id !in s.tasks {
          OthersStayInFlight(s.tasks, id, Some(Checking(alias, suite, fp)), k, s.world.pins.pins[k]);
        }
      case DoCheck(id, answer, diskOk) =>
        if id in s.tasks && s.tasks[id].Checking? {
          CheckStepAccounts(env, s, id, answer, diskOk, k);
        }
      case DoRecord(id, time, diskOk) =>
        if id in s.tasks && s.tasks[id].Recording? {
          RecordKeepsAudited(env, s.world, s.tasks[id].event, time, diskOk, k, s.world.pins.pins[k]);
          RecordStepAccounts(env, s, id, time, diskOk, k);
        }
      case DoRollback(id, diskOk) =>
        if id in s.tasks && s.tasks[id].RollingBack? {
          RollbackStepAccounts(env, s, id, diskOk, k);
        }
      case OtherRecord(event, time, diskOk) =>
        assert Accounted(s, k, s.world.pins.pins[k]);
        RecordKeepsAudited(env, s.world, event, time, diskOk, k, s.world.pins.pins[k]);
    }
  }

  /** In every interleaving, each pin is named by an audit event, or a task still has
      that event pending or is rolling the slot back, or the slot's last change is a
      rollback whose write failed. */
  lemma EveryPinAccountedFor(env: Env, s: Shared, acts: seq<Act>, n: nat)
    requires Inv(s) && n <= |acts|
    ensures AllAccounted(Runs.At(Stepper(env), s, acts, n))
  {
    forall x, act | Inv(x) ensures Inv(Stepper(env)(x, act)) {
      StepKeepsInv(env, x, act);
    }
    Runs.Always(Stepper(env), (x: Shared) => Inv(x), s, acts, n);
  }

  /** The step is a rollback whose write fails. */
  predicate LosesRollback(env: Env, s: Shared, act: Act) {
    act.DoRollback? && act.id in s.tasks && s.tasks[act.id].RollingBack?
    && !ForgetPin(env.json, s.world.pins, s.tasks[act.id].alias, s.tasks[act.id].suite, act.diskOk).0
  }

  function RollbackOk(env: Env): (Shared, Act) -> bool {
    (s: Shared, act: Act) => !LosesRollback(env, s, act)
  }

  /** Every pin is audited or has a task answering for it. */
  predicate NoGap(s: Shared) {
    && TasksWellFormed(s)
    && forall k | k in s.world.pins.pins ::
         var fp := s.world.pins.pins[k]; Audited(s.world.log.entries, k, fp) || InFlight(s.tasks, k, fp)
  }

  /** The step fails to undo a pin that no event names and no other task answers for. */
  predicate LeavesGap(env: Env, s: Shared, act: Act) {
    && LosesRollback(env, s, act)
    && var key := Key(s.tasks[act.id].alias, s.tasks[act.id].suite);
       && key in s.world.pins.pins
       && !Audited(s.world.log.entries, key, s.world.pins.pins[key])
       && !InFlight(s.tasks - {act.id}, key, s.world.pins.pins[key])
  }

  function FillsGaps(env: Env): (Shared, Act) -> bool {
    (s: Shared, act: Act) => !LeavesGap(env, s, act)
  }

  lemma NoGapIsAccounted(s: Shared)
    ensures s.lost == {} ==> (NoGap(s) <==> Inv(s))
  {
    if s.lost == {} && NoGap(s) {
      forall k | k in s.world.pins.pins ensures Accounted(s, k, s.world.pins.pins[k]) {
      }
    }
    if s.lost == {} && Inv(s) {
      forall k | k in s.world.pins.pins ensures Accounted(s, k, s.world.pins.pins[k]) {
      }
    }
  }

  lemma LostRollbackGap(env: Env, s: Shared, act: Act)
    requires NoGap(s) && LosesRollback(env, s, act)
    ensures NoGap(Step(env, s, act)) <==> !LeavesGap(env, s, act)
  {
    var s' := Step(env, s, act);
    var key := Key(s.tasks[act.id].alias, s.tasks[act.id].suite);
    assert s'.world == s.world && s'.tasks == s.tasks - {act.id};
    forall k | k in s.world.pins.pins && k != key
      ensures var fp := s.world.pins.pins[k]; Audited(s.world.log.entries, k, fp) || InFlight(s'.tasks, k, fp)
    {
      if InFlight(s.tasks, k, s.world.pins.pins[k]) {
        OthersStayInFlight(s.tasks, act.id, None, k, s.world.pins.pins[k]);
      }
    }
  }

  /** What a step does to the stores and the tasks does not depend on the slots lost before. */
  lemma LostIsOnlyWatched(env: Env, s: Shared, act: Act)
    ensures var s', t' := Step(env, s, act), Step(env, s.(lost := {}), act);
            s'.world == t'.world && s'.tasks == t'.tasks && (!LosesRollback(env, s, act) ==> t'.lost == {})
  {
  }

  lemma StepKeepsNoGap(env: Env, s: Shared, act: Act)
    requires NoGap(s)
    ensures NoGap(Step(env, s, act)) <==> !LeavesGap(env, s, act)
  {
    if LosesRollback(env, s, act) {
      LostRollbackGap(env, s, act);
    } else {
      var t := s.(lost := {});
      LostIsOnlyWatched(env, s, act);
      NoGapIsAccounted(t);
      StepKeepsInv(env, t, act);
      NoGapIsAccounted(Step(env, t, act));
    }
  }

  /** The interleavings in which at every point every pin is audited or has a task answering for
      it are exactly those in which no failed rollback leaves a gap. */
  lemma NoGapIff(env: Env, s: Shared, acts: seq<Act>, n: nat)
    requires NoGap(s) && n <= |acts|
    ensures Runs.Allowed(Stepper(env), FillsGaps(env), s, acts, n) <==> Runs.Throughout(Stepper(env), WithoutGap(), s, acts, n)
  {
    forall x, act | WithoutGap()(x) ensures WithoutGap()(Stepper(env)(x, act)) <==> FillsGaps(env)(x, act) {
      StepKeepsNoGap(env, x, act);
    }
    Runs.InvariantIff(Stepper(env), FillsGaps(env), WithoutGap(), s, acts, n);
  }

  function WithoutGap(): Shared -> bool {
    (s: Shared) => NoGap(s)
  }

  /** In particular, with working rollbacks there is never a gap. */
  lemma WorkingRollbacksLeaveNoGap(env: Env, s: Shared, acts: seq<Act>, n: nat)
    requires NoGap(s) && n <= |acts| && Runs.Allowed(Stepper(env), RollbackOk(env), s, acts, n)
    ensures var now := Runs.At(Stepper(env), s, acts, n); NoGap(now) && (s.lost == {} ==> now.lost == {})
  {
    forall i | 0 <= i < n ensures FillsGaps(env)(Runs.At(Stepper(env), s, acts, i), acts[i]) {
      assert RollbackOk(env)(Runs.At(Stepper(env), s, acts, i), acts[i]);
    }
    NoGapIff(env, s, acts, n);
    assert WithoutGap()(Runs.At(Stepper(env), s, acts, n));
    NothingIsLost(env, s, acts, n);
  }

  lemma NothingIsLost(env: Env, s: Shared, acts: seq<Act>, n: nat)
    requires n <= |acts| && Runs.Allowed(Stepper(env), RollbackOk(env), s, acts, n)
    ensures s.lost == {} ==> Runs.At(Stepper(env), s, acts, n).lost == {}
  {
    if s.lost == {} {
      Runs.Invariant(Stepper(env), RollbackOk(env), (x: Shared) => x.lost == {}, s, acts, n);
    }
  }

  /** So whenever no request is in flight every pin is audited, if no rollback left a gap. */
  lemma QuiescentPinsAreAudited(env: Env, s: Shared, acts: seq<Act>, n: nat)
    requires NoGap(s) && n <= |acts| && Runs.Allowed(Stepper(env), FillsGaps(env), s, acts, n)
    requires Runs.At(Stepper(env), s, acts, n).tasks == map[]
    ensures var w := Runs.At(Stepper(env), s, acts, n).world;
            forall k | k in w.pins.pins :: Audited(w.log.entries, k, w.pins.pins[k])
  {
    NoGapIff(env, s, acts, n);
    assert WithoutGap()(Runs.At(Stepper(env), s, acts, n));
  }

  const EMPTY := Shared(World(PinState(map[], None), Log.LogState([], None)), map[], {})

  /** The condition is needed: if both the append and the rollback write fail, the pin
      outlives its request with no record, and later requests simply match it. */
  lemma LostRollbackLeavesUnauditedPin(env: Env, alias: string, suite: string, fp: Fingerprint)
    requires env.json.encode(HexPins(map[Key(alias, suite) := fp])).Some?
    ensures var acts := [Arrive(0, alias, suite, fp), DoCheck(0, CONFIRMED, true), DoRecord(0, 0, false), DoRollback(0, false)];
            var end := Runs.At(Stepper(env), EMPTY, acts, 4);
            && end.tasks == map[] && Key(alias, suite) in end.world.pins.pins
            && !Audited(end.world.log.entries, Key(alias, suite), fp)
            && CheckPin(env.json, end.world.pins, alias, suite, fp, Answered(false), false).0 == Trusted(Matched)
  {
    var acts := [Arrive(0, alias, suite, fp), DoCheck(0, CONFIRMED, true), DoRecord(0, 0, false), DoRollback(0, false)];
    assert Runs.At(Stepper(env), EMPTY, acts, 0) == EMPTY;
    var s1 := Runs.At(Stepper(env), EMPTY, acts, 1);
    assert s1 == Step(env, EMPTY, acts[0]);
    var s2 := Runs.At(Stepper(env), EMPTY, acts, 2);
    assert s2 == Step(env, s1, acts[1]) && s2.world.pins.pins == map[Key(alias, suite) := fp];
    var s3 := Runs.At(Stepper(env), EMPTY, acts, 3);
    assert s3 == Step(env, s2, acts[2]) && s3.tasks == map[0 := RollingBack(alias, suite)];
    var s4 := Runs.At(Stepper(env), EMPTY, acts, 4);
    assert s4 == Step(env, s3, acts[3]) && s4.tasks == map[];
  }

  /** Restart-safety of both stores. */
  predicate StoresSound(env: Env, w: World) {
    Synced(env.json, w.pins) && Log.Consistent(env.platform, env.key, Log.LogRun(w.log, []))
  }

  lemma StepKeepsStoresSound(env: Env, s: Shared, act: Act)
    requires Log.Sound(env.platform) && RoundTrips(env.json) && StoresSound(env, s.world)
    ensures StoresSound(env, Step(env, s, act).world)
  {
    match act
    case Arrive(id, alias, suite, fp) =>
    case DoCheck(id, answer, diskOk) =>
      if id in s.tasks && s.tasks[id].Checking? {
        var p := s.tasks[id];
        StepKeepsSynced(env.json, s.world.pins, CheckOp(p.alias, p.suite, p.fp, answer, diskOk));
      }
    case DoRecord(id, time, diskOk) =>
      if id in s.tasks && s.tasks[id].Recording? {
        Log.StepKeepsConsistent(env.platform, env.key, Log.LogRun(s.world.log, []), Log.Record(s.tasks[id].event, time, diskOk));
      }
    case DoRollback(id, diskOk) =>
      if id in s.tasks && s.tasks[id].RollingBack? {
        var p := s.tasks[id];
        StepKeepsSynced(env.json, s.world.pins, ForgetOp(p.alias, p.suite, diskOk));
      }
    case OtherRecord(event, time, diskOk) =>
      Log.StepKeepsConsistent(env.platform, env.key, Log.LogRun(s.world.log, []), Log.Record(event, time, diskOk));
  }

  /** In every interleaving the audit chain verifies and a restart would load exactly
      the pins and the entries in memory. */
  lemma InterleavingsKeepStoresSound(env: Env, s: Shared, acts: seq<Act>, n: nat)
    requires Log.Sound(env.platform) && RoundTrips(env.json) && StoresSound(env, s.world) && n <= |acts|
    ensures StoresSound(env, Runs.At(Stepper(env), s, acts, n).world)
  {
    var inv := (x: Shared) => StoresSound(env, x.world);
    forall x, act | inv(x) ensures inv(Stepper(env)(x, act)) {
      StepKeepsStoresSound(env, x, act);
    }
    Runs.Always(Stepper(env), inv, s, acts, n);
  }
}
