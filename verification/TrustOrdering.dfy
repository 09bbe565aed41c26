/** When the replayed log agrees with the pins under concurrent host-trust checks: the exact
    condition on the steps, a discipline that guarantees it, and a run that breaks it. */
module TrustOrdering {
  import opened Bytes
  import opened HostTrust
  import opened Agent
  import opened TrustInterleaving
  import Log = AuditLog
  import Runs

  /** The task has changed the slot and not yet recorded or undone it. */
  predicate Busy(p: Phase, key: string) {
    !p.Checking? && Key(p.alias, p.suite) == key
  }

  predicate SlotFree(tasks: map<nat, Phase>, key: string) {
    forall id | id in tasks :: !Busy(tasks[id], key)
  }

  /** The slot agrees, if it is free and pinned. */
  predicate SlotAgrees(s: Shared, key: string) {
    key in s.world.pins.pins && SlotFree(s.tasks, key) ==> RecordedAs(Replay(s.world.log.entries), key, s.world.pins.pins[key])
  }

  /** Every pin in a free slot is the last one the log records for it. */
  predicate FreeSlotsAgree(s: Shared) {
    forall k | k in s.world.pins.pins :: SlotAgrees(s, k)
  }

  predicate Settled(s: Shared) {
    TasksWellFormed(s) && FreeSlotsAgree(s)
  }

  // Exactly which steps keep free slots in agreement.

  /** The recording that leaves its slot free finds its own fingerprint pinned there, or nothing. */
  predicate RecordsThePin(env: Env, s: Shared, id: nat, time: int, diskOk: bool)
    requires id in s.tasks && s.tasks[id].Recording?
  {
    var p := s.tasks[id];
    var key := Key(p.alias, p.suite);
    Record(env, s.world, p.event, time, diskOk).0 && SlotFree(s.tasks - {id}, key) && key in s.world.pins.pins ==>
      s.world.pins.pins[key] == p.fp
  }

  /** The failed rollback that leaves its slot free finds there what the log records last, or nothing. */
  predicate LosesOnlyTheRecorded(env: Env, s: Shared, id: nat, diskOk: bool)
    requires id in s.tasks && s.tasks[id].RollingBack?
  {
    var p := s.tasks[id];
    var key := Key(p.alias, p.suite);
    !ForgetPin(env.json, s.world.pins, p.alias, p.suite, diskOk).0 && SlotFree(s.tasks - {id}, key) && key in s.world.pins.pins ==>
      RecordedAs(Replay(s.world.log.entries), key, s.world.pins.pins[key])
  }

  /** A trust event recorded from elsewhere for a free slot names what is pinned there. */
  predicate NamesThePin(env: Env, s: Shared, event: Log.Event, time: int, diskOk: bool) {
    IsTrustEvent(event) && Record(env, s.world, event, time, diskOk).0 ==>
      var key := Key(event.endpoint, event.suite);
      key in s.world.pins.pins && SlotFree(s.tasks, key) ==> Names(event, key, s.world.pins.pins[key])
  }

  predicate Settles(env: Env, s: Shared, act: Act) {
    match act
    case DoRecord(id, time, diskOk) => id in s.tasks && s.tasks[id].Recording? ==> RecordsThePin(env, s, id, time, diskOk)
    case DoRollback(id, diskOk) => id in s.tasks && s.tasks[id].RollingBack? ==> LosesOnlyTheRecorded(env, s, id, diskOk)
    case OtherRecord(event, time, diskOk) => NamesThePin(env, s, event, time, diskOk)
    case _ => true
  }

  predicate BusyAt(tasks: map<nat, Phase>, id: nat, key: string) {
    id in tasks && Busy(tasks[id], key)
  }

  ghost predicate OnlyChanges(tasks: map<nat, Phase>, after: map<nat, Phase>, id: nat) {
    forall j | j != id :: (j in tasks <==> j in after) && (j in tasks ==> after[j] == tasks[j])
  }

  /** If only task `id` changed, and not whether it is busy with the slot, the slot is as free as before. */
  lemma AsFree(tasks: map<nat, Phase>, after: map<nat, Phase>, id: nat, key: string)
    requires OnlyChanges(tasks, after, id) && (BusyAt(tasks, id, key) <==> BusyAt(after, id, key))
    ensures SlotFree(tasks, key) <==> SlotFree(after, key)
  {
    if SlotFree(tasks, key) {
      forall j | j in after ensures !Busy(after[j], key) {
        assert j != id ==> j in tasks && after[j] == tasks[j];
        assert !BusyAt(tasks, id, key);
      }
    }
    if SlotFree(after, key) {
      forall j | j in tasks ensures !Busy(tasks[j], key) {
        assert j != id ==> j in after && after[j] == tasks[j];
        assert !BusyAt(after, id, key);
      }
    }
  }

  lemma CheckSettles(env: Env, s: Shared, id: nat, answer: Answer, diskOk: bool)
    requires Settled(s) && id in s.tasks && s.tasks[id].Checking?
    ensures Settled(CheckStep(env, s, id, s.tasks[id], answer, diskOk))
  {
    var p := s.tasks[id];
    var s' := CheckStep(env, s, id, p, answer, diskOk);
    forall k | k in s'.world.pins.pins && SlotFree(s'.tasks, k) ensures SlotAgrees(s', k) {
      assert !BusyAt(s'.tasks, id, k);
      AsFree(s.tasks, s'.tasks, id, k);
    }
  }

  lemma RecordSettles(env: Env, s: Shared, id: nat, time: int, diskOk: bool)
    requires Settled(s) && id in s.tasks && s.tasks[id].Recording?
    ensures Settled(RecordStep(env, s, id, s.tasks[id], time, diskOk)) <==> RecordsThePin(env, s, id, time, diskOk)
  {
    var p := s.tasks[id];
    var key := Key(p.alias, p.suite);
    var s' := RecordStep(env, s, id, p, time, diskOk);
    RecordReplay(env, s.world, p.event, time, diskOk);
    forall k | k != key || id in s'.tasks ensures SlotAgrees(s', k) {
      AsFree(s.tasks, s'.tasks, id, k);
      assert SlotAgrees(s, k);
    }
    if id !in s'.tasks && key in s.world.pins.pins && HexEncode(p.fp) == HexEncode(s.world.pins.pins[key]) {
      HexInjective(p.fp, s.world.pins.pins[key]);
    }
    assert FreeSlotsAgree(s') <==> SlotAgrees(s', key);
  }

  lemma RollbackSettles(env: Env, s: Shared, id: nat, diskOk: bool)
    requires Settled(s) && id in s.tasks && s.tasks[id].RollingBack?
    ensures Settled(RollbackStep(env, s, id, s.tasks[id], diskOk)) <==> LosesOnlyTheRecorded(env, s, id, diskOk)
  {
    var p := s.tasks[id];
    var key := Key(p.alias, p.suite);
    var s' := RollbackStep(env, s, id, p, diskOk);
    forall k | k != key ensures SlotAgrees(s', k) {
      AsFree(s.tasks, s'.tasks, id, k);
      assert SlotAgrees(s, k);
    }
    assert FreeSlotsAgree(s') <==> SlotAgrees(s', key);
  }

  lemma OtherRecordSettles(env: Env, s: Shared, event: Log.Event, time: int, diskOk: bool)
    requires Settled(s)
    ensures Settled(s.(world := Record(env, s.world, event, time, diskOk).1)) <==> NamesThePin(env, s, event, time, diskOk)
  {
    var s' := s.(world := Record(env, s.world, event, time, diskOk).1);
    RecordReplay(env, s.world, event, time, diskOk);
    if IsTrustEvent(event) {
      var key := Key(event.endpoint, event.suite);
      forall k | k != key ensures SlotAgrees(s', k) {
        assert SlotAgrees(s, k);
      }
      assert SlotAgrees(s, key);
      assert FreeSlotsAgree(s') <==> SlotAgrees(s', key);
    }
  }

  lemma StepSettles(env: Env, s: Shared, act: Act)
    requires Settled(s)
    ensures Settled(TrustInterleaving.Step(env, s, act)) <==> Settles(env, s, act)
  {
    match act
    case Arrive(id, alias, suite, fp) =>
      if id !in s.tasks {
        var s' := TrustInterleaving.Step(env, s, act);
        forall k | k in s.world.pins.pins ensures SlotAgrees(s', k) {
          assert SlotAgrees(s, k);
          AsFree(s.tasks, s'.tasks, id, k);
        }
      }
    case DoCheck(id, answer, diskOk) =>
      if id in s.tasks && s.tasks[id].Checking? {
        CheckSettles(env, s, id, answer, diskOk);
      }
    case DoRecord(id, time, diskOk) =>
      if id in s.tasks && s.tasks[id].Recording? {
        RecordSettles(env, s, id, time, diskOk);
      }
    case DoRollback(id, diskOk) =>
      if id in s.tasks && s.tasks[id].RollingBack? {
        RollbackSettles(env, s, id, diskOk);
      }
    case OtherRecord(event, time, diskOk) => OtherRecordSettles(env, s, event, time, diskOk);
  }

  function SettlingStep(env: Env): (Shared, Act) -> bool {
    (s: Shared, act: Act) => Settles(env, s, act)
  }

  function IsSettled(): Shared -> bool {
    (s: Shared) => Settled(s)
  }

  /** The interleavings in which, at every point, every pin no task is busy with is the last one
      logged for its slot are exactly those whose steps all settle their slot. */
  lemma FreeSlotsAgreeIff(env: Env, s: Shared, acts: seq<Act>, n: nat)
    requires Settled(s) && n <= |acts|
    ensures Runs.Allowed(TrustInterleaving.Stepper(env), SettlingStep(env), s, acts, n)
            <==> Runs.Throughout(TrustInterleaving.Stepper(env), IsSettled(), s, acts, n)
  {
    forall x, act | IsSettled()(x) ensures IsSettled()(TrustInterleaving.Stepper(env)(x, act)) <==> SettlingStep(env)(x, act) {
      StepSettles(env, x, act);
    }
    Runs.InvariantIff(TrustInterleaving.Stepper(env), SettlingStep(env), IsSettled(), s, acts, n);
  }

  /** With nothing in flight, that is agreement of the whole log with all pins. */
  lemma SettledAtRest(s: Shared)
    requires s.tasks == map[]
    ensures Settled(s) <==> Agrees(s.world)
  {
    if Settled(s) {
      forall k | k in s.world.pins.pins ensures SlotAgrees(s, k) && SlotFree(s.tasks, k) {
      }
    }
  }

  lemma LostDoesNotMatter(s: Shared, lost: set<string>)
    ensures Settled(s) <==> Settled(s.(lost := lost))
  {
    forall k | k in s.world.pins.pins ensures SlotAgrees(s, k) <==> SlotAgrees(s.(lost := lost), k) {
    }
  }

  // A discipline that guarantees it, and links rotations too.

  /** A check changes a slot only while no other task is busy with it, rollbacks work, and
      only the tasks record trust events. */
  predicate Orderly(env: Env, s: Shared, act: Act) {
    match act
    case DoCheck(id, answer, diskOk) =>
      id in s.tasks && s.tasks[id].Checking? && id in CheckStep(env, s, id, s.tasks[id], answer, diskOk).tasks ==>
        SlotFree(s.tasks, Key(s.tasks[id].alias, s.tasks[id].suite))
    case DoRollback(_, _) => !LosesRollback(env, s, act)
    case OtherRecord(event, _, _) => !IsTrustEvent(event)
    case _ => true
  }

  predicate OneTaskPerSlot(tasks: map<nat, Phase>) {
    forall i, j | i in tasks && j in tasks && !tasks[i].Checking? && Busy(tasks[j], Key(tasks[i].alias, tasks[i].suite)) :: i == j
  }

  /** The slot holds the task's fingerprint, its event says so, and a rotation starts from
      what the log records last. */
  predicate ReadyToRecord(w: World, p: Phase)
    requires p.Recording?
  {
    var key := Key(p.alias, p.suite);
    && key in w.pins.pins && w.pins.pins[key] == p.fp && Names(p.event, key, p.fp)
    && (p.event.HostTrustRotation? ==>
          key in Replay(w.log.entries) && Replay(w.log.entries)[key] == p.event.oldFingerprintHex)
  }

  predicate Ordered(s: Shared) {
    && Settled(s) && OneTaskPerSlot(s.tasks) && RotationsLink(s.world.log.entries)
    && forall id | id in s.tasks && s.tasks[id].Recording? :: ReadyToRecord(s.world, s.tasks[id])
  }

  lemma OrderlySettles(env: Env, s: Shared, act: Act)
    requires Ordered(s) && Orderly(env, s, act)
    ensures Settles(env, s, act)
  {
  }

  lemma CheckKeepsOrder(env: Env, s: Shared, id: nat, answer: Answer, diskOk: bool)
    requires Ordered(s) && id in s.tasks && s.tasks[id].Checking? && Orderly(env, s, DoCheck(id, answer, diskOk))
    ensures Ordered(CheckStep(env, s, id, s.tasks[id], answer, diskOk))
  {
    CheckSettles(env, s, id, answer, diskOk);
  }

  lemma RecordedKeepsOthersReady(s: Shared, s': Shared, id: nat)
    requires Ordered(s) && id in s.tasks && s.tasks[id].Recording? && s'.tasks == s.tasks - {id} && s'.world.pins == s.world.pins
    requires var p := s.tasks[id]; Replay(s'.world.log.entries) == Replay(s.world.log.entries)[Key(p.alias, p.suite) := HexEncode(p.fp)]
    ensures forall j | j in s'.tasks && s'.tasks[j].Recording? :: ReadyToRecord(s'.world, s'.tasks[j])
  {
    forall j | j in s'.tasks && s'.tasks[j].Recording? ensures ReadyToRecord(s'.world, s'.tasks[j]) {
      assert ReadyToRecord(s.world, s.tasks[j]);
      assert !Busy(s.tasks[j], Key(s.tasks[id].alias, s.tasks[id].suite));
    }
  }

  lemma RecordKeepsOrder(env: Env, s: Shared, id: nat, time: int, diskOk: bool)
    requires Ordered(s) && id in s.tasks && s.tasks[id].Recording?
    ensures Ordered(RecordStep(env, s, id, s.tasks[id], time, diskOk))
  {
    var s' := RecordStep(env, s, id, s.tasks[id], time, diskOk);
    assert ReadyToRecord(s.world, s.tasks[id]);
    RecordReplays(env, s.world, s.tasks[id].event, time, diskOk);
    RecordSettles(env, s, id, time, diskOk);
    if id !in s'.tasks {
      RecordedKeepsOthersReady(s, s', id);
    }
  }

  lemma RollbackKeepsOrder(env: Env, s: Shared, id: nat, diskOk: bool)
    requires Ordered(s) && id in s.tasks && s.tasks[id].RollingBack? && Orderly(env, s, DoRollback(id, diskOk))
    ensures Ordered(RollbackStep(env, s, id, s.tasks[id], diskOk))
  {
    RollbackSettles(env, s, id, diskOk);
  }

  lemma StepKeepsOrder(env: Env, s: Shared, act: Act)
    requires Ordered(s) && Orderly(env, s, act)
    ensures Ordered(TrustInterleaving.Step(env, s, act))
  {
    OrderlySettles(env, s, act);
    StepSettles(env, s, act);
    match act
    case Arrive(id, alias, suite, fp) =>
    case DoCheck(id, answer, diskOk) =>
      if id in s.tasks && s.tasks[id].Checking? {
        CheckKeepsOrder(env, s, id, answer, diskOk);
      }
    case DoRecord(id, time, diskOk) =>
      if id in s.tasks && s.tasks[id].Recording? {
        RecordKeepsOrder(env, s, id, time, diskOk);
      }
    case DoRollback(id, diskOk) =>
      if id in s.tasks && s.tasks[id].RollingBack? {
        RollbackKeepsOrder(env, s, id, diskOk);
      }
    case OtherRecord(event, time, diskOk) =>
      RecordReplays(env, s.world, event, time, diskOk);
  }

  function OrderlyStep(env: Env): (Shared, Act) -> bool {
    (s: Shared, act: Act) => Orderly(env, s, act)
  }

  /** In every orderly interleaving, at every point, every pin no task is busy with is the last
      one logged for its slot, and every logged rotation starts from the one before. */
  lemma OrderlyInterleavingsAgree(env: Env, s: Shared, acts: seq<Act>, n: nat)
    requires Ordered(s) && n <= |acts| && Runs.Allowed(TrustInterleaving.Stepper(env), OrderlyStep(env), s, acts, n)
    ensures var now := Runs.At(TrustInterleaving.Stepper(env), s, acts, n);
            FreeSlotsAgree(now) && RotationsLink(now.world.log.entries) && (now.tasks == map[] ==> Agrees(now.world))
  {
    var inv := (x: Shared) => Ordered(x);
    forall x, act | inv(x) && OrderlyStep(env)(x, act) ensures inv(TrustInterleaving.Stepper(env)(x, act)) {
      StepKeepsOrder(env, x, act);
    }
    Runs.Invariant(TrustInterleaving.Stepper(env), OrderlyStep(env), inv, s, acts, n);
    var now := Runs.At(TrustInterleaving.Stepper(env), s, acts, n);
    assert inv(now);
    if now.tasks == map[] {
      SettledAtRest(now);
    }
  }

  /** Every serializer succeeds. */
  ghost predicate Serializes(env: Env) {
    && (forall m :: env.json.encode(m).Some?)
    && (forall pre :: env.platform.preimages.encode(pre).Some?) && (forall log :: env.platform.logs.encode(log).Some?)
  }

  function FirstUse(alias: string, suite: string, fp: Fingerprint): Log.Event {
    Log.HostTrustFirstUse(alias, suite, HexEncode(fp))
  }

  function Rotation(alias: string, suite: string, fp: Fingerprint, gp: Fingerprint): Log.Event {
    Log.HostTrustRotation(alias, suite, HexEncode(fp), HexEncode(gp))
  }

  /** Both requests have pinned the slot, the second over the first, and neither has recorded. */
  predicate BothPinned(s: Shared, alias: string, suite: string, fp: Fingerprint, gp: Fingerprint) {
    && s.world.pins.pins == map[Key(alias, suite) := gp] && s.world.log.entries == []
    && s.tasks == map[0 := Recording(alias, suite, fp, FirstUse(alias, suite, fp)),
                      1 := Recording(alias, suite, gp, Rotation(alias, suite, fp, gp))]
  }

  lemma PinsCross(env: Env, alias: string, suite: string, fp: Fingerprint, gp: Fingerprint)
    requires Serializes(env) && fp != gp
    ensures var s := EMPTY.(tasks := map[0 := Checking(alias, suite, fp), 1 := Checking(alias, suite, gp)]);
            var t := CheckStep(env, s, 0, s.tasks[0], CONFIRMED, true);
            1 in t.tasks && t.tasks[1].Checking? && BothPinned(CheckStep(env, t, 1, t.tasks[1], CONFIRMED, true), alias, suite, fp, gp)
  {
    var s := EMPTY.(tasks := map[0 := Checking(alias, suite, fp), 1 := Checking(alias, suite, gp)]);
    var t := CheckStep(env, s, 0, s.tasks[0], CONFIRMED, true);
    assert t.world.pins.pins == map[Key(alias, suite) := fp];
    assert t.tasks == map[0 := Recording(alias, suite, fp, FirstUse(alias, suite, fp)), 1 := Checking(alias, suite, gp)];
  }

  lemma RecordsCross(env: Env, s: Shared, alias: string, suite: string, fp: Fingerprint, gp: Fingerprint)
    requires Serializes(env) && fp != gp && BothPinned(s, alias, suite, fp, gp)
    ensures var t := RecordStep(env, s, 1, s.tasks[1], 0, true);
            && 0 in t.tasks && t.tasks[0].Recording?
            && var end := RecordStep(env, t, 0, t.tasks[0], 0, true);
               && end.tasks == map[] && end.world.pins == s.world.pins && !RotationsLink(end.world.log.entries)
               && RecordedAs(Replay(end.world.log.entries), Key(alias, suite), fp)
  {
    var t := RecordStep(env, s, 1, s.tasks[1], 0, true);
    assert |t.world.log.entries| == 1 && t.world.log.entries[0].event == Rotation(alias, suite, fp, gp);
    var end := RecordStep(env, t, 0, t.tasks[0], 0, true);
    var log := end.world.log.entries;
    assert |log| == 2 && log[1].event == FirstUse(alias, suite, fp) && log[..1] == t.world.log.entries;
    assert log[0] == log[..1][0] && log[..0] == [];
  }

  function CrossedRun(alias: string, suite: string, fp: Fingerprint, gp: Fingerprint): seq<Act> {
    [Arrive(0, alias, suite, fp), Arrive(1, alias, suite, gp), DoCheck(0, CONFIRMED, true), DoCheck(1, CONFIRMED, true),
     DoRecord(1, 0, true), DoRecord(0, 0, true)]
  }

  lemma BothArrive(env: Env, alias: string, suite: string, fp: Fingerprint, gp: Fingerprint)
    ensures Runs.At(TrustInterleaving.Stepper(env), EMPTY, CrossedRun(alias, suite, fp, gp), 2)
            == EMPTY.(tasks := map[0 := Checking(alias, suite, fp), 1 := Checking(alias, suite, gp)])
  {
    var acts, step := CrossedRun(alias, suite, fp, gp), TrustInterleaving.Stepper(env);
    assert Runs.At(step, EMPTY, acts, 0) == EMPTY;
    var s1 := Runs.At(step, EMPTY, acts, 1);
    assert s1 == TrustInterleaving.Step(env, EMPTY, acts[0]) && s1.tasks == map[0 := Checking(alias, suite, fp)];
    assert Runs.At(step, EMPTY, acts, 2) == TrustInterleaving.Step(env, s1, acts[1]);
  }

  lemma BothPin(env: Env, alias: string, suite: string, fp: Fingerprint, gp: Fingerprint)
    requires Serializes(env) && fp != gp
    ensures BothPinned(Runs.At(TrustInterleaving.Stepper(env), EMPTY, CrossedRun(alias, suite, fp, gp), 4), alias, suite, fp, gp)
  {
    var acts, step := CrossedRun(alias, suite, fp, gp), TrustInterleaving.Stepper(env);
    BothArrive(env, alias, suite, fp, gp);
    PinsCross(env, alias, suite, fp, gp);
    var s2 := Runs.At(step, EMPTY, acts, 2);
    var s3 := CheckStep(env, s2, 0, s2.tasks[0], CONFIRMED, true);
    assert Runs.At(step, EMPTY, acts, 3) == s3;
    assert Runs.At(step, EMPTY, acts, 4) == CheckStep(env, s3, 1, s3.tasks[1], CONFIRMED, true);
  }

  lemma LastTwoSteps(env: Env, s: Shared, acts: seq<Act>)
    requires |acts| == 6 && acts[4].DoRecord? && acts[5].DoRecord?
    requires var at := Runs.At(TrustInterleaving.Stepper(env), s, acts, 4); acts[4].id in at.tasks && at.tasks[acts[4].id].Recording?
    requires var at := Runs.At(TrustInterleaving.Stepper(env), s, acts, 4);
             var next := RecordStep(env, at, acts[4].id, at.tasks[acts[4].id], acts[4].time, acts[4].diskOk);
             acts[5].id in next.tasks && next.tasks[acts[5].id].Recording?
    ensures var at := Runs.At(TrustInterleaving.Stepper(env), s, acts, 4);
            var next := RecordStep(env, at, acts[4].id, at.tasks[acts[4].id], acts[4].time, acts[4].diskOk);
            Runs.At(TrustInterleaving.Stepper(env), s, acts, 6)
            == RecordStep(env, next, acts[5].id, next.tasks[acts[5].id], acts[5].time, acts[5].diskOk)
  {
    var step := TrustInterleaving.Stepper(env);
    var at := Runs.At(step, s, acts, 4);
    assert Runs.At(step, s, acts, 5) == TrustInterleaving.Step(env, at, acts[4]);
    assert Runs.At(step, s, acts, 6) == TrustInterleaving.Step(env, Runs.At(step, s, acts, 5), acts[5]);
  }

  /** Not every interleaving: two requests pin one slot in turn and record in the opposite order. No
      write fails, no rollback is needed, and yet the log ends with the first fingerprint while the
      second is pinned, and holds a rotation from a fingerprint it had not recorded. */
  lemma CrossedRecordsDisagree(env: Env, alias: string, suite: string, fp: Fingerprint, gp: Fingerprint)
    requires Serializes(env) && fp != gp
    ensures var end := Runs.At(TrustInterleaving.Stepper(env), EMPTY, CrossedRun(alias, suite, fp, gp), 6);
            && end.tasks == map[] && end.world.pins.pins == map[Key(alias, suite) := gp]
            && RecordedAs(Replay(end.world.log.entries), Key(alias, suite), fp)
            && !Agrees(end.world) && !RotationsLink(end.world.log.entries)
  {
    var acts := CrossedRun(alias, suite, fp, gp);
    var pinned := Runs.At(TrustInterleaving.Stepper(env), EMPTY, acts, 4);
    BothPin(env, alias, suite, fp, gp);
    RecordsCross(env, pinned, alias, suite, fp, gp);
    LastTwoSteps(env, EMPTY, acts);
    var end := Runs.At(TrustInterleaving.Stepper(env), EMPTY, acts, 6);
    WrongRecordDisagrees(end.world, Key(alias, suite), fp, gp);
  }

  lemma WrongRecordDisagrees(w: World, key: string, fp: Fingerprint, gp: Fingerprint)
    requires fp != gp && key in w.pins.pins && w.pins.pins[key] == gp && RecordedAs(Replay(w.log.entries), key, fp)
    ensures !Agrees(w)
  {
    if Agrees(w) {
      HexInjective(fp, gp);
    }
  }
}
