/** The table of pending handshakes: expiry is enforced only when an entry is
    touched, with caps on how many may be pending. `V` is the suspended viewer
    handshake of either suite. */
module HandshakeTable {
  import opened Bytes
  import Runs

  const MAX_PENDING_PER_ORIGIN := 8
  const MAX_PENDING_PROCESS_WIDE := 32

  type HandshakeId = seq<byte>

  datatype Pending<V> = Pending(suite: V, origin: string, endpoint: string, created: nat)
  type Table<V> = map<HandshakeId, Pending<V>>

  datatype BeginResult = Began(id: HandshakeId) | TooManyForOrigin | TooManyProcessWide
  datatype TakeResult<V> = Taken(suite: V, endpoint: string) | NotFoundOrExpired | OriginMismatch

  function Elapsed(created: nat, now: nat): nat {
    if created <= now then now - created else 0
  }

  /** The entries younger than `ttl`. */
  function Live<V>(m: Table<V>, ttl: nat, now: nat): Table<V> {
    map id | id in m && Elapsed(m[id].created, now) < ttl :: m[id]
  }

  function PendingFor<V>(m: Table<V>, origin: string): set<HandshakeId> {
    set id | id in m && m[id].origin == origin
  }

  function BeginIn<V>(m: Table<V>, origin: string, suite: V, endpoint: string, id: HandshakeId, now: nat)
    : (BeginResult, Table<V>) {
    if |m| >= MAX_PENDING_PROCESS_WIDE then (TooManyProcessWide, m)
    else if |PendingFor(m, origin)| >= MAX_PENDING_PER_ORIGIN then (TooManyForOrigin, m)
    else (Began(id), m[id := Pending(suite, origin, endpoint, now)])
  }

  /** Whatever the outcome, the entry is gone afterwards. */
  function TakeFrom<V>(m: Table<V>, ttl: nat, id: HandshakeId, origin: string, now: nat): (TakeResult<V>, Table<V>) {
    if id !in m then (NotFoundOrExpired, m)
    else if Elapsed(m[id].created, now) >= ttl then (NotFoundOrExpired, m - {id})
    else if m[id].origin != origin then (OriginMismatch, m - {id})
    else (Taken(m[id].suite, m[id].endpoint), m - {id})
  }

  // What the three operations do, in clock readings and numbers.

  /** An entry lives while the clock is below its creation time plus the ttl. */
  lemma LiveIff<V>(m: Table<V>, ttl: nat, now: nat, id: HandshakeId)
    ensures id in Live(m, ttl, now) <==> id in m && ttl > 0 && now < m[id].created + ttl
    ensures id in Live(m, ttl, now) ==> Live(m, ttl, now)[id] == m[id]
  {
  }

  /** The entry leaves the table whatever the answer; it is handed out to its own origin, in time,
      and an expired one is not told apart from a missing one. */
  lemma TakeIff<V>(m: Table<V>, ttl: nat, id: HandshakeId, origin: string, now: nat)
    ensures var (r, m') := TakeFrom(m, ttl, id, origin, now);
            && m' == m - {id}
            && (r == NotFoundOrExpired <==> id !in m || ttl == 0 || now >= m[id].created + ttl)
            && (r == OriginMismatch <==> id in m && ttl > 0 && now < m[id].created + ttl && m[id].origin != origin)
            && (id in m && ttl > 0 && now < m[id].created + ttl && m[id].origin == origin ==> r == Taken(m[id].suite, m[id].endpoint))
  {
    assert id !in m ==> m - {id} == m;
  }

  /** At most 32 entries in all and 8 for the origin, in this order; only a success changes the table. */
  lemma BeginIff<V>(m: Table<V>, origin: string, suite: V, endpoint: string, id: HandshakeId, now: nat)
    ensures var (r, m') := BeginIn(m, origin, suite, endpoint, id, now);
            var own := set k | k in m && m[k].origin == origin;
            && (r == TooManyProcessWide <==> |m| >= 32)
            && (r == TooManyForOrigin <==> |m| < 32 && |own| >= 8)
            && (r.Began? <==> |m| < 32 && |own| < 8)
            && (r.Began? ==> r.id == id && m' == m[id := Pending(suite, origin, endpoint, now)])
            && (!r.Began? ==> m' == m)
  {
  }

  class HandshakeState<V> {
    const ttl: nat
    var pending: Table<V>

    constructor (ttl: nat)
      ensures this.ttl == ttl && pending == map[]
    {
      this.ttl, pending := ttl, map[];
    }

    method PurgeExpired(now: nat)
      modifies this
      ensures pending == Live(old(pending), ttl, now)
      ensures forall id :: id in pending <==> id in old(pending) && ttl > 0 && now < old(pending)[id].created + ttl
      ensures forall id | id in pending :: pending[id] == old(pending)[id]
    {
      pending := map id | id in pending && Elapsed(pending[id].created, now) < ttl :: pending[id];
    }

    /** `id` is the freshly drawn random identifier. */
    method Begin(origin: string, suite: V, endpoint: string, id: HandshakeId, now: nat) returns (r: BeginResult)
      modifies this
      ensures (r, pending) == BeginIn(old(pending), origin, suite, endpoint, id, now)
    {
      if |pending| >= MAX_PENDING_PROCESS_WIDE {
        return TooManyProcessWide;
      }
      var perOrigin := |set k | k in pending && pending[k].origin == origin|;
      if perOrigin >= MAX_PENDING_PER_ORIGIN {
        return TooManyForOrigin;
      }
      pending := pending[id := Pending(suite, origin, endpoint, now)];
      r := Began(id);
    }

    method Take(id: HandshakeId, origin: string, now: nat) returns (r: TakeResult<V>)
      modifies this
      ensures (r, pending) == TakeFrom(old(pending), ttl, id, origin, now)
    {
      if id !in pending {
        return NotFoundOrExpired;
      }
      var entry := pending[id];
      pending := pending - {id};
      if Elapsed(entry.created, now) >= ttl {
        return NotFoundOrExpired;
      }
      if entry.origin != origin {
        return OriginMismatch;
      }
      r := Taken(entry.suite, entry.endpoint);
    }
  }

  // Runs of the three operations.

  datatype Op<V> =
    | Purge(now: nat)
    | Begin(origin: string, suite: V, endpoint: string, id: HandshakeId, now: nat)
    | Take(id: HandshakeId, origin: string, now: nat)

  function Step<V>(ttl: nat, m: Table<V>, op: Op<V>): Table<V> {
    match op
    case Purge(now) => Live(m, ttl, now)
    case Begin(origin, suite, endpoint, id, now) => BeginIn(m, origin, suite, endpoint, id, now).1
    case Take(id, origin, now) => TakeFrom(m, ttl, id, origin, now).1
  }

  function Stepper<V>(ttl: nat): (Table<V>, Op<V>) -> Table<V> {
    (m: Table<V>, op: Op<V>) => Step(ttl, m, op)
  }

  function TableAt<V>(ttl: nat, ops: seq<Op<V>>, n: nat): Table<V>
    requires n <= |ops|
  {
    Runs.At(Stepper(ttl), map[], ops, n)
  }

  // The caps.

  ghost predicate WithinCaps<V>(m: Table<V>) {
    |m| <= 32 && forall origin :: |PendingFor(m, origin)| <= 8
  }

  lemma SubsetSize<T>(a: set<T>, b: set<T>)
    requires a <= b
    ensures |a| <= |b|
  {
    assert b == a + (b - a);
  }

  lemma SmallerStaysWithinCaps<V>(m: Table<V>, m': Table<V>)
    requires WithinCaps(m) && m'.Keys <= m.Keys && forall id | id in m' :: m'[id] == m[id]
    ensures WithinCaps(m')
  {
    SubsetSize(m'.Keys, m.Keys);
    forall origin ensures |PendingFor(m', origin)| <= 8 {
      SubsetSize(PendingFor(m', origin), PendingFor(m, origin));
    }
  }

  lemma StepKeepsCaps<V>(ttl: nat, m: Table<V>, op: Op<V>)
    requires WithinCaps(m)
    ensures WithinCaps(Step(ttl, m, op))
  {
    var m' := Step(ttl, m, op);
    if op.Begin? && m' != m {
      SubsetSize(m'.Keys, m.Keys + {op.id});
      forall origin ensures |PendingFor(m', origin)| <= 8 {
        var grown := if origin == op.origin then PendingFor(m, origin) + {op.id} else PendingFor(m, origin);
        SubsetSize(PendingFor(m', origin), grown);
      }
    } else {
      SmallerStaysWithinCaps(m, m');
    }
  }

  /** On every run, random-id collisions included, at most 32 handshakes are pending
      and at most 8 for any one origin. */
  lemma RunStaysWithinCaps<V(!new)>(ttl: nat, ops: seq<Op<V>>, n: nat)
    requires n <= |ops|
    ensures WithinCaps(TableAt(ttl, ops, n))
  {
    ghost var inv := (m: Table<V>) => WithinCaps(m);
    forall m, op | inv(m) ensures inv(Stepper(ttl)(m, op)) {
      StepKeepsCaps(ttl, m, op);
    }
    assert WithinCaps<V>(map[]) by {
      forall origin ensures PendingFor<V>(map[], origin) == {} {
      }
    }
    Runs.Always(Stepper(ttl), inv, map[], ops, n);
  }

  // Each handshake is used at most once, and only as it was begun.

  predicate Begins<V>(m: Table<V>, op: Op<V>, id: HandshakeId) {
    op.Begin? && BeginIn(m, op.origin, op.suite, op.endpoint, op.id, op.now).0 == Began(id)
  }

  /** Operation `i` is a `begin` that returned `id`. */
  predicate BeganAt<V>(ttl: nat, ops: seq<Op<V>>, i: nat, id: HandshakeId)
    requires i < |ops|
  {
    Begins(TableAt(ttl, ops, i), ops[i], id)
  }

  /** The operation returned `id` from a `begin`, or presented it to a `take`. */
  predicate Touches<V>(m: Table<V>, op: Op<V>, id: HandshakeId) {
    Begins(m, op, id) || (op.Take? && op.id == id)
  }

  function TouchesOf<V>(id: HandshakeId): (Table<V>, Op<V>) -> bool {
    (m: Table<V>, op: Op<V>) => Touches(m, op, id)
  }

  predicate Stores<V(==)>(op: Op<V>, e: Pending<V>) {
    op.Begin? && e == Pending(op.suite, op.origin, op.endpoint, op.now)
  }

  lemma StepEffect<V>(ttl: nat, m: Table<V>, op: Op<V>, id: HandshakeId)
    requires id in Step(ttl, m, op)
    ensures if Touches(m, op, id) then Begins(m, op, id) && Stores(op, Step(ttl, m, op)[id])
            else id in m && Step(ttl, m, op)[id] == m[id]
  {
  }

  /** The pending entry for `id` is what the last `begin` that returned it stored, with no `take` since. */
  lemma PendingTracesBack<V(!new)>(ttl: nat, ops: seq<Op<V>>, n: nat, id: HandshakeId)
    requires n <= |ops| && id in TableAt(ttl, ops, n)
    ensures match Runs.LastWhere(Stepper(ttl), TouchesOf(id), map[], ops, n)
            case None => false
            case Some(i) => i < |ops| && Stores(ops[i], TableAt(ttl, ops, n)[id])
  {
    ghost var get := (m: Table<V>) => if id in m then Some(m[id]) else None;
    ghost var sets := (op: Op<V>, e: Pending<V>) => Stores(op, e);
    forall m, op
      ensures get(Stepper<V>(ttl)(m, op)).Some? ==>
                if TouchesOf<V>(id)(m, op) then sets(op, get(Stepper<V>(ttl)(m, op)).value) else get(m) == get(Stepper<V>(ttl)(m, op))
    {
      if id in Step(ttl, m, op) {
        StepEffect(ttl, m, op, id);
      }
    }
    Runs.Provenance(Stepper(ttl), m => true, get, TouchesOf(id), sets, map[], ops, n);
  }

  function TakenAt<V>(ttl: nat, ops: seq<Op<V>>, i: nat): TakeResult<V>
    requires i < |ops| && ops[i].Take?
  {
    TakeFrom(TableAt(ttl, ops, i), ttl, ops[i].id, ops[i].origin, ops[i].now).0
  }

  /** On every run, a successful take returns exactly what the latest `begin` that
      returned the id stored, to the origin that began it, younger than the ttl, and
      the id was not presented in between. */
  lemma TakeReturnsWhatWasBegun<V(!new)>(ttl: nat, ops: seq<Op<V>>, n: nat)
    requires n < |ops| && ops[n].Take? && TakenAt(ttl, ops, n).Taken?
    ensures var r := TakenAt(ttl, ops, n);
            exists i: nat | i < n :: BeganAt(ttl, ops, i, ops[n].id)
              && ops[i].suite == r.suite && ops[i].endpoint == r.endpoint
              && ops[i].origin == ops[n].origin && ops[n].now < ops[i].now + ttl
              && forall j: nat | i < j < n :: !Touches(TableAt(ttl, ops, j), ops[j], ops[n].id)
  {
    var id := ops[n].id;
    PendingTracesBack(ttl, ops, n, id);
    var i := Runs.LastWhere(Stepper(ttl), TouchesOf(id), map[], ops, n).value;
    assert BeganAt(ttl, ops, i, id);
    forall j: nat | i < j < n ensures !Touches(TableAt(ttl, ops, j), ops[j], id) {
      assert !Runs.HoldsAt(Stepper(ttl), TouchesOf(id), map[], ops)(j);
    }
  }

  function BeginCount<V>(ttl: nat, ops: seq<Op<V>>, n: nat, id: HandshakeId): nat
    requires n <= |ops|
  {
    if n == 0 then 0 else BeginCount(ttl, ops, n - 1, id) + if BeganAt(ttl, ops, n - 1, id) then 1 else 0
  }

  function SuccessfulTakes<V>(ttl: nat, ops: seq<Op<V>>, n: nat, id: HandshakeId): nat
    requires n <= |ops|
  {
    if n == 0 then 0
    else
      SuccessfulTakes(ttl, ops, n - 1, id)
      + if ops[n - 1].Take? && ops[n - 1].id == id && TakenAt(ttl, ops, n - 1).Taken? then 1 else 0
  }

  /** Successful takes of an id never exceed the begins that returned it. */
  lemma {:induction false} TakesNeverExceedBegins<V>(ttl: nat, ops: seq<Op<V>>, n: nat, id: HandshakeId)
    requires n <= |ops|
    ensures SuccessfulTakes(ttl, ops, n, id) + (if id in TableAt(ttl, ops, n) then 1 else 0) <= BeginCount(ttl, ops, n, id)
  {
    if n > 0 {
      TakesNeverExceedBegins(ttl, ops, n - 1, id);
      if id in TableAt(ttl, ops, n) {
        StepEffect(ttl, TableAt(ttl, ops, n - 1), ops[n - 1], id);
      }
    }
  }

  // The lazy table against an ideal one that drops each entry the moment its age reaches the ttl.

  /** The two requests of the API; `begin` purges first, then inserts. */
  datatype Call<V> =
    | BeginCall(origin: string, suite: V, endpoint: string, id: HandshakeId, purgeTime: nat, insertTime: nat)
    | FinishCall(id: HandshakeId, origin: string, now: nat)

  datatype Seen<V> = SawBegin(result: BeginResult) | SawTake(taken: TakeResult<V>)

  /** A state of either table, with the last clock reading. */
  datatype Clocked<V> = Clocked(table: Table<V>, clock: nat)

  function Handler<V>(ttl: nat, s: Clocked<V>, c: Call<V>): (Seen<V>, Clocked<V>) {
    match c
    case BeginCall(origin, suite, endpoint, id, purgeTime, insertTime) =>
      var (r, m) := BeginIn(Live(s.table, ttl, purgeTime), origin, suite, endpoint, id, insertTime);
      (SawBegin(r), Clocked(m, insertTime))
    case FinishCall(id, origin, now) =>
      var (r, m) := TakeFrom(s.table, ttl, id, origin, now);
      (SawTake(r), Clocked(m, now))
  }

  /** What is left of a table when each entry vanishes at its creation time plus the ttl. */
  function Unexpired<V>(m: Table<V>, ttl: nat, now: nat): Table<V> {
    map id | id in m && ttl > 0 && now < m[id].created + ttl :: m[id]
  }

  /** The ideal table never holds an expired entry when a call reaches it, so its
      `take` has no age to look at. */
  function Ideal<V>(ttl: nat, s: Clocked<V>, c: Call<V>): (Seen<V>, Clocked<V>) {
    match c
    case BeginCall(origin, suite, endpoint, id, purgeTime, insertTime) =>
      var m := Unexpired(s.table, ttl, purgeTime);
      if |m| >= 32 then (SawBegin(TooManyProcessWide), Clocked(Unexpired(m, ttl, insertTime), insertTime))
      else if |set k | k in m && m[k].origin == origin| >= 8
      then (SawBegin(TooManyForOrigin), Clocked(Unexpired(m, ttl, insertTime), insertTime))
      else (SawBegin(Began(id)), Clocked(Unexpired(m[id := Pending(suite, origin, endpoint, insertTime)], ttl, insertTime), insertTime))
    case FinishCall(id, origin, now) =>
      var m := Unexpired(s.table, ttl, now);
      (SawTake(if id !in m then NotFoundOrExpired
               else if m[id].origin != origin then OriginMismatch
               else Taken(m[id].suite, m[id].endpoint)),
       Clocked(m - {id}, now))
  }

  lemma LiveIsUnexpired<V>(m: Table<V>, ttl: nat, now: nat)
    ensures Live(m, ttl, now) == Unexpired(m, ttl, now)
  {
  }

  predicate ClockAdvances<V>(s: Clocked<V>, c: Call<V>) {
    match c
    case BeginCall(_, _, _, _, purgeTime, insertTime) => s.clock <= purgeTime <= insertTime
    case FinishCall(_, _, now) => s.clock <= now
  }

  /** Both tables read the same clock and hold the same unexpired entries. */
  predicate Alike<V(==)>(ttl: nat, lazy: Clocked<V>, ideal: Clocked<V>) {
    lazy.clock == ideal.clock && Live(lazy.table, ttl, lazy.clock) == Live(ideal.table, ttl, lazy.clock)
  }

  lemma LiveLater<V>(m: Table<V>, ttl: nat, t: nat, t': nat)
    requires t <= t'
    ensures Live(Live(m, ttl, t), ttl, t') == Live(m, ttl, t')
  {
  }

  lemma LiveRemove<V>(m: Table<V>, ttl: nat, t: nat, id: HandshakeId)
    ensures Live(m - {id}, ttl, t) == Live(m, ttl, t) - {id}
  {
  }

  lemma CallsLookAlike<V>(ttl: nat, lazy: Clocked<V>, ideal: Clocked<V>, c: Call<V>)
    requires Alike(ttl, lazy, ideal) && ClockAdvances(lazy, c)
    ensures Handler(ttl, lazy, c).0 == Ideal(ttl, ideal, c).0
    ensures Alike(ttl, Handler(ttl, lazy, c).1, Ideal(ttl, ideal, c).1)
  {
    var t := if c.BeginCall? then c.purgeTime else c.now;
    LiveLater(lazy.table, ttl, lazy.clock, t);
    LiveLater(ideal.table, ttl, lazy.clock, t);
    LiveIsUnexpired(ideal.table, ttl, t);
    match c
    case BeginCall(origin, suite, endpoint, id, _, insertTime) =>
      var m := Live(lazy.table, ttl, t);
      var m' := BeginIn(m, origin, suite, endpoint, id, insertTime).1;
      LiveIsUnexpired(m', ttl, insertTime);
      LiveLater(m', ttl, insertTime, insertTime);
    case FinishCall(id, origin, now) =>
      LiveRemove(lazy.table, ttl, now, id);
      LiveRemove(Live(ideal.table, ttl, now), ttl, now, id);
      LiveLater(ideal.table, ttl, now, now);
      LiveIff(lazy.table, ttl, now, id);
      TakeIff(lazy.table, ttl, id, origin, now);
  }

  datatype Both<V> = Both(lazy: Clocked<V>, ideal: Clocked<V>)

  function BothStep<V>(ttl: nat): (Both<V>, Call<V>) -> Both<V> {
    (b: Both<V>, c: Call<V>) => Both(Handler(ttl, b.lazy, c).1, Ideal(ttl, b.ideal, c).1)
  }

  function Advances<V>(): (Both<V>, Call<V>) -> bool {
    (b: Both<V>, c: Call<V>) => ClockAdvances(b.lazy, c)
  }

  /** On every run with a monotone clock, the lazy table and the ideal one refuse the
      same begins, for the same reason, and answer every take alike. */
  lemma LazyTableIsIdeal<V(!new)>(ttl: nat, start: Clocked<V>, calls: seq<Call<V>>, n: nat)
    requires n < |calls| && Runs.Allowed(BothStep(ttl), Advances(), Both(start, start), calls, n + 1)
    ensures var b := Runs.At(BothStep(ttl), Both(start, start), calls, n);
            Handler(ttl, b.lazy, calls[n]).0 == Ideal(ttl, b.ideal, calls[n]).0
  {
    ghost var inv := (b: Both<V>) => Alike(ttl, b.lazy, b.ideal);
    forall b, c | inv(b) && Advances<V>()(b, c) ensures inv(BothStep<V>(ttl)(b, c)) {
      CallsLookAlike(ttl, b.lazy, b.ideal, c);
    }
    Runs.Invariant(BothStep(ttl), Advances(), inv, Both(start, start), calls, n);
    var b := Runs.At(BothStep(ttl), Both(start, start), calls, n);
    assert Advances<V>()(b, calls[n]);
    CallsLookAlike(ttl, b.lazy, b.ideal, calls[n]);
  }

  /** The handler's purge is what makes this true: without it, entries past their
      ttl still count against the caps. */
  lemma ExpiredEntriesFillTheTable<V>(m: Table<V>, ttl: nat, now: nat, origin: string, suite: V, endpoint: string, id: HandshakeId)
    requires |m| >= 32 && forall k | k in m :: m[k].created + ttl <= now
    ensures BeginIn(m, origin, suite, endpoint, id, now).0 == TooManyProcessWide
    ensures BeginIn(Live(m, ttl, now), origin, suite, endpoint, id, now).0 == Began(id)
  {
    assert Live(m, ttl, now) == map[];
    assert PendingFor(Live(m, ttl, now), origin) == {};
  }
}
