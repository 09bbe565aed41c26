/** The agent's audit trail: a hash-chained, signed list of trust decisions with
    transactional appends, its verifier, and its checkpoints. */
module AuditLog {
  import opened Bytes
  import Runs

  datatype Event =
    | HostTrustFirstUse(endpoint: string, suite: string, fingerprintHex: string)
    | HostTrustRotation(endpoint: string, suite: string, oldFingerprintHex: string, newFingerprintHex: string)
    | Paired
    | SessionRefreshed
    | RevocationSigned(target: string, endpoint: string)
    | KeyReplacementSigned(target: string, newKeyHex: string, endpoint: string)
    | BroadGrantConfirmed(scope: string, endpoint: string)

  datatype Preimage = Preimage(seqNo: nat, prevHash: Bytes32, timestamp: int, event: Event)

  datatype Entry = Entry(
    seqNo: nat, prevHash: Bytes32, timestamp: int, event: Event, entryHash: Bytes32, signature: seq<byte>)

  type SigningKey = seq<byte>

  /** The serializers, hash and signature scheme the log is built on. */
  datatype Platform = Platform(
    preimages: Codec<Preimage>, logs: Codec<seq<Entry>>,
    hash: seq<byte> -> Bytes32,
    publicKey: SigningKey -> Bytes32,
    sign: (SigningKey, seq<byte>) -> seq<byte>,
    verify: (Bytes32, seq<byte>, seq<byte>) -> bool)

  /** Parsing undoes serializing, and a signature verifies under the signer's own key. */
  ghost predicate Sound(p: Platform) {
    && RoundTrips(p.preimages) && RoundTrips(p.logs)
    && (forall k, m :: p.verify(p.publicKey(k), m, p.sign(k, m)))
  }

  function PreimageOf(e: Entry): Preimage {
    Preimage(e.seqNo, e.prevHash, e.timestamp, e.event)
  }

  /** `None` when the preimage does not serialize. */
  function ComputeEntryHash(p: Platform, pre: Preimage): Option<Bytes32> {
    match p.preimages.encode(pre)
    case Some(bytes) => Some(p.hash(bytes))
    case None => None
  }

  function LastHash(entries: seq<Entry>): Bytes32 {
    if entries == [] then Zero32() else entries[|entries| - 1].entryHash
  }

  // What it means for a chain to be intact.

  predicate Linked(entries: seq<Entry>, i: nat)
    requires i < |entries|
  {
    entries[i].seqNo == i && entries[i].prevHash == LastHash(entries[..i])
  }

  predicate Hashed(p: Platform, e: Entry) {
    ComputeEntryHash(p, PreimageOf(e)) == Some(e.entryHash)
  }

  predicate EntryValid(p: Platform, key: Bytes32, entries: seq<Entry>, i: nat)
    requires i < |entries|
  {
    Linked(entries, i) && Hashed(p, entries[i]) && p.verify(key, entries[i].entryHash, entries[i].signature)
  }

  predicate ValidChain(p: Platform, key: Bytes32, entries: seq<Entry>) {
    forall i | 0 <= i < |entries| :: EntryValid(p, key, entries, i)
  }

  /** The entry is numbered in order, linked to the hash before it (32 zero bytes at first), hashed over
      exactly number, link, time and event, and signed. */
  predicate Intact(p: Platform, key: Bytes32, entries: seq<Entry>, i: nat)
    requires i < |entries|
  {
    var e := entries[i];
    var bytes := p.preimages.encode(Preimage(i, e.prevHash, e.timestamp, e.event));
    && e.seqNo == i
    && (if i == 0 then forall k | 0 <= k < 32 :: e.prevHash[k] == 0 else e.prevHash == entries[i - 1].entryHash)
    && bytes.Some? && p.hash(bytes.value) == e.entryHash
    && p.verify(key, e.entryHash, e.signature)
  }

  lemma EntryMeans(p: Platform, key: Bytes32, entries: seq<Entry>, i: nat)
    requires i < |entries|
    ensures EntryValid(p, key, entries, i) <==> Intact(p, key, entries, i)
  {
    ZerosAreZero(32);
    assert (forall k | 0 <= k < 32 :: entries[i].prevHash[k] == 0) <==> entries[i].prevHash == Zero32();
  }

  lemma ChainMeans(p: Platform, key: Bytes32, entries: seq<Entry>)
    ensures ValidChain(p, key, entries) <==> forall i | 0 <= i < |entries| :: Intact(p, key, entries, i)
  {
    forall i | 0 <= i < |entries| ensures EntryValid(p, key, entries, i) <==> Intact(p, key, entries, i) {
      EntryMeans(p, key, entries, i);
    }
  }

  lemma {:induction false} ZerosAreZero(n: nat)
    ensures forall k | 0 <= k < n :: Zeros(n)[k] == 0
  {
    if n > 0 {
      ZerosAreZero(n - 1);
    }
  }

  datatype VerifyError =
    | OutOfOrder(at: nat, expected: nat, found: nat)
    | BadGenesis
    | BrokenLink(at: nat)
    | EntryHashMismatch(at: nat)
    | BadSignature(at: nat)

  /** The error names the first check that entry `i` fails. */
  predicate Explains(err: VerifyError, p: Platform, key: Bytes32, entries: seq<Entry>, i: nat)
    requires i < |entries|
  {
    var e := entries[i];
    match err
    case OutOfOrder(at, expected, found) => at == expected == i && found == e.seqNo && found != i
    case BadGenesis => e.seqNo == i == 0 && e.prevHash != Zero32()
    case BrokenLink(at) => at == i == e.seqNo && i > 0 && e.prevHash != entries[i - 1].entryHash
    case EntryHashMismatch(at) => at == i && Linked(entries, i) && !Hashed(p, e)
    case BadSignature(at) =>
      at == i && Linked(entries, i) && Hashed(p, e) && !p.verify(key, e.entryHash, e.signature)
  }

  /** The checks on one entry, against the hash of the one before it. */
  method VerifyEntry(p: Platform, key: Bytes32, entries: seq<Entry>, i: nat, expectedPrev: Bytes32) returns (r: Option<VerifyError>)
    requires i < |entries| && expectedPrev == (if i == 0 then Zero32() else entries[i - 1].entryHash)
    ensures r.None? <==> EntryValid(p, key, entries, i)
    ensures r.Some? ==> Explains(r.value, p, key, entries, i)
  {
    var e := entries[i];
    if e.seqNo != i {
      return Some(OutOfOrder(i, i, e.seqNo));
    }
    if e.seqNo == 0 && e.prevHash != Zero32() {
      return Some(BadGenesis);
    }
    if e.prevHash != expectedPrev {
      return Some(BrokenLink(e.seqNo));
    }
    var recomputed := ComputeEntryHash(p, PreimageOf(e));
    if recomputed != Some(e.entryHash) {
      return Some(EntryHashMismatch(e.seqNo));
    }
    if !p.verify(key, e.entryHash, e.signature) {
      return Some(BadSignature(e.seqNo));
    }
    r := None;
  }

  /** Accepts exactly the intact chains, and otherwise reports the least bad index. */
  method VerifyChain(p: Platform, key: Bytes32, entries: seq<Entry>) returns (r: Option<VerifyError>)
    ensures r.None? <==> ValidChain(p, key, entries)
    ensures r.Some? ==> exists i :: 0 <= i < |entries| && !EntryValid(p, key, entries, i)
                                    && (forall j | 0 <= j < i :: EntryValid(p, key, entries, j))
                                    && Explains(r.value, p, key, entries, i)
  {
    var expectedPrev := Zero32();
    for i := 0 to |entries|
      invariant expectedPrev == if i == 0 then Zero32() else entries[i - 1].entryHash
      invariant forall j | 0 <= j < i :: EntryValid(p, key, entries, j)
    {
      r := VerifyEntry(p, key, entries, i, expectedPrev);
      if r.Some? {
        return;
      }
      expectedPrev := entries[i].entryHash;
    }
    r := None;
  }

  // A head hash commits to the whole history.

  predicate SameHistory(a: seq<Entry>, b: seq<Entry>) {
    |a| == |b| && forall i | 0 <= i < |a| :: PreimageOf(a[i]) == PreimageOf(b[i]) && a[i].entryHash == b[i].entryHash
  }

  /** Two entries whose serialized preimages differ but hash alike. */
  predicate CollidingEntries(p: Platform, e: Entry, f: Entry) {
    var x, y := p.preimages.encode(PreimageOf(e)), p.preimages.encode(PreimageOf(f));
    x.Some? && y.Some? && Collision(p.hash, x.value, y.value)
  }

  lemma PrefixValid(p: Platform, key: Bytes32, entries: seq<Entry>, n: nat)
    requires ValidChain(p, key, entries) && n <= |entries|
    ensures ValidChain(p, key, entries[..n])
  {
    forall i | 0 <= i < n ensures EntryValid(p, key, entries[..n], i) {
      assert EntryValid(p, key, entries, i);
      assert entries[..n][..i] == entries[..i];
    }
  }

  lemma EqualHashes(p: Platform, e: Entry, f: Entry)
    requires RoundTrips(p.preimages) && Hashed(p, e) && Hashed(p, f) && e.entryHash == f.entryHash
    ensures PreimageOf(e) == PreimageOf(f) || CollidingEntries(p, e, f)
  {
    var x, y := p.preimages.encode(PreimageOf(e)), p.preimages.encode(PreimageOf(f));
    assert p.preimages.decode(x.value) == Some(PreimageOf(e));
    assert p.preimages.decode(y.value) == Some(PreimageOf(f));
  }

  lemma SameHistorySnoc(a: seq<Entry>, b: seq<Entry>)
    requires a != [] && b != [] && SameHistory(a[..|a| - 1], b[..|b| - 1])
    requires PreimageOf(a[|a| - 1]) == PreimageOf(b[|b| - 1]) && LastHash(a) == LastHash(b)
    ensures SameHistory(a, b)
  {
    forall i | 0 <= i < |a| - 1
      ensures PreimageOf(a[i]) == PreimageOf(b[i]) && a[i].entryHash == b[i].entryHash
    {
      assert a[..|a| - 1][i] == a[i] && b[..|b| - 1][i] == b[i];
    }
  }

  /** An entry that hashes to the value an empty chain starts from. */
  predicate HashesToZero(p: Platform, e: Entry) {
    Hashed(p, e) && e.entryHash == Zero32()
  }

  /** The ways two intact chains with one head hash can differ: two of their entries collide,
      or one chain is empty and the other ends in an entry that hashes to zero. */
  predicate HashBreaks(p: Platform, a: seq<Entry>, b: seq<Entry>, i: nat, j: nat) {
    || (i < |a| && j < |b| && CollidingEntries(p, a[i], b[j]))
    || (a == [] && j < |b| && HashesToZero(p, b[j]))
    || (b == [] && i < |a| && HashesToZero(p, a[i]))
  }

  /** Two intact chains with one head hash hold the same history, or the walk down from
      their heads ends at a break of the hash. */
  lemma {:induction false} HeadHashCommits(p: Platform, ka: Bytes32, kb: Bytes32, a: seq<Entry>, b: seq<Entry>)
    returns (i: nat, j: nat)
    requires RoundTrips(p.preimages) && ValidChain(p, ka, a) && ValidChain(p, kb, b) && LastHash(a) == LastHash(b)
    ensures SameHistory(a, b) || HashBreaks(p, a, b, i, j)
    decreases |a|
  {
    i, j := if a == [] then 0 else |a| - 1, if b == [] then 0 else |b| - 1;
    assert a != [] ==> EntryValid(p, ka, a, i);
    assert b != [] ==> EntryValid(p, kb, b, j);
    if a != [] && b != [] {
      EqualHashes(p, a[i], b[j]);
      if !CollidingEntries(p, a[i], b[j]) {
        var c, d := a[..i], b[..j];
        PrefixValid(p, ka, a, i);
        PrefixValid(p, kb, b, j);
        i, j := HeadHashCommits(p, ka, kb, c, d);
        if SameHistory(c, d) {
          SameHistorySnoc(a, b);
        }
      }
    }
  }

  // Appending, storing and loading.

  function NewEntry(p: Platform, key: SigningKey, entries: seq<Entry>, now: int, event: Event): (r: Option<Entry>) {
    var pre := Preimage(|entries|, LastHash(entries), now, event);
    match ComputeEntryHash(p, pre)
    case Some(h) => Some(Entry(pre.seqNo, pre.prevHash, now, event, h, p.sign(key, h)))
    case None => None
  }

  lemma AppendKeepsValid(p: Platform, key: SigningKey, entries: seq<Entry>, now: int, event: Event)
    requires Sound(p) && ValidChain(p, p.publicKey(key), entries)
    requires NewEntry(p, key, entries, now, event).Some?
    ensures ValidChain(p, p.publicKey(key), entries + [NewEntry(p, key, entries, now, event).value])
  {
    var e := NewEntry(p, key, entries, now, event).value;
    var all := entries + [e];
    forall i | 0 <= i < |all| ensures EntryValid(p, p.publicKey(key), all, i) {
      assert all[..i] == entries[..i];
      if i < |entries| {
        assert EntryValid(p, p.publicKey(key), entries, i);
      } else {
        assert entries[..i] == entries;
      }
    }
  }

  /** The list in memory and the bytes on disk (`None` before the first write). */
  datatype LogState = LogState(entries: seq<Entry>, file: Option<seq<byte>>)

  /** Append, persist, and keep the entry only if both succeeded. `diskOk` is
      the outcome of the atomic overwrite. */
  function AppendTransactional(p: Platform, key: SigningKey, st: LogState, now: int, event: Event, diskOk: bool)
    : (r: (bool, LogState))
    ensures !r.0 ==> r.1 == st
    ensures r.0 ==> |r.1.entries| == |st.entries| + 1 && r.1.entries[..|st.entries|] == st.entries
                    && r.1.entries[|st.entries|].event == event
  {
    match NewEntry(p, key, st.entries, now, event)
    case None => (false, st)
    case Some(e) =>
      match p.logs.encode(st.entries + [e])
      case Some(bytes) => if diskOk then (true, LogState(st.entries + [e], Some(bytes))) else (false, st)
      case None => (false, st)
  }

  /** An append succeeds exactly when both serializers and the disk do, and then adds one entry,
      numbered, linked, timed, hashed and signed, and leaves the file holding the whole list. */
  lemma AppendIff(p: Platform, key: SigningKey, st: LogState, now: int, event: Event, diskOk: bool)
    ensures var (ok, st') := AppendTransactional(p, key, st, now, event, diskOk);
            var prev := if st.entries == [] then Zero32() else st.entries[|st.entries| - 1].entryHash;
            var pre := p.preimages.encode(Preimage(|st.entries|, prev, now, event));
            && (ok ==> diskOk && pre.Some? && |st'.entries| == |st.entries| + 1
                       && st'.entries == st.entries + [Entry(|st.entries|, prev, now, event, p.hash(pre.value), p.sign(key, p.hash(pre.value)))]
                       && p.logs.encode(st'.entries) == st'.file && st'.file.Some?)
            && (!ok ==> st' == st)
            && (!ok && diskOk && pre.Some? ==>
                  p.logs.encode(st.entries + [Entry(|st.entries|, prev, now, event, p.hash(pre.value), p.sign(key, p.hash(pre.value)))]).None?)
  {
  }

  /** The chain a start-up would trust: nothing stored gives an empty chain, and
      stored bytes must parse and verify. */
  function Load(p: Platform, key: SigningKey, file: Option<seq<byte>>): Option<seq<Entry>> {
    match file
    case None => Some([])
    case Some(bytes) => IfValid(p, p.publicKey(key), p.logs.decode(bytes))
  }

  function IfValid(p: Platform, key: Bytes32, parsed: Option<seq<Entry>>): Option<seq<Entry>> {
    if parsed.Some? && ValidChain(p, key, parsed.value) then parsed else None
  }

  /** A start-up trusts an empty chain if there is no file, the parsed one if it is intact, and
      nothing otherwise. */
  lemma LoadIff(p: Platform, key: SigningKey, file: Option<seq<byte>>)
    ensures file.None? ==> Load(p, key, file) == Some([])
    ensures file.Some? ==>
              var parsed := p.logs.decode(file.value);
              && (Load(p, key, file).Some? <==> parsed.Some? && ValidChain(p, p.publicKey(key), parsed.value))
              && (Load(p, key, file).Some? ==> Load(p, key, file) == parsed)
  {
  }

  /** The log file: an overwrite succeeds, or fails and leaves the old bytes. */
  class LogFile {
    var bytes: Option<seq<byte>>

    constructor (initial: Option<seq<byte>>)
      ensures bytes == initial
    {
      bytes := initial;
    }

    method Overwrite(b: seq<byte>, diskOk: bool) returns (ok: bool)
      modifies this
      ensures ok == diskOk && bytes == if ok then Some(b) else old(bytes)
    {
      if diskOk {
        bytes := Some(b);
      }
      ok := diskOk;
    }
  }

  class AgentAuditChain {
    const platform: Platform
    const key: SigningKey
    const file: LogFile
    var entries: seq<Entry>

    ghost function State(): LogState
      reads this, file
    {
      LogState(entries, file.bytes)
    }

    constructor FromEntries(platform: Platform, key: SigningKey, file: LogFile, entries: seq<Entry>)
      ensures this.platform == platform && this.key == key && this.file == file && this.entries == entries
    {
      this.platform, this.key, this.file, this.entries := platform, key, file, entries;
    }

    /** Push the entry, persist the list, and pop it again if persisting failed. */
    method Append(now: int, event: Event, diskOk: bool) returns (ok: bool)
      modifies this, file
      ensures (ok, State()) == AppendTransactional(platform, key, old(State()), now, event, diskOk)
    {
      var e := NewEntry(platform, key, entries, now, event);
      if e.None? {
        return false;
      }
      entries := entries + [e.value];
      var bytes := platform.logs.encode(entries);
      ok := false;
      if bytes.Some? {
        ok := file.Overwrite(bytes.value, diskOk);
      }
      if !ok {
        entries := entries[..|entries| - 1];
        assert entries == old(entries);
      }
    }
  }

  /** Fails closed: bytes that do not parse or do not verify load nothing. */
  method LoadVerified(p: Platform, key: SigningKey, file: LogFile) returns (chain: AgentAuditChain?)
    ensures chain == null <==> Load(p, key, file.bytes).None?
    ensures chain != null ==> fresh(chain) && chain.platform == p && chain.key == key && chain.file == file
                              && Load(p, key, file.bytes) == Some(chain.entries)
    ensures chain == null <==> file.bytes.Some? && (p.logs.decode(file.bytes.value).None?
                                                    || !ValidChain(p, p.publicKey(key), p.logs.decode(file.bytes.value).value))
    ensures chain != null ==> ValidChain(p, p.publicKey(key), chain.entries)
                              && if file.bytes.None? then chain.entries == [] else p.logs.decode(file.bytes.value) == Some(chain.entries)
  {
    if file.bytes.None? {
      chain := new AgentAuditChain.FromEntries(p, key, file, []);
      return;
    }
    var entries := p.logs.decode(file.bytes.value);
    if entries.None? {
      return null;
    }
    var err := VerifyChain(p, p.publicKey(key), entries.value);
    if err.Some? {
      return null;
    }
    chain := new AgentAuditChain.FromEntries(p, key, file, entries.value);
  }

  // Checkpoints.

  datatype Checkpoint = Checkpoint(
    entryCount: nat, headHash: Bytes32, publicKey: Bytes32, timestamp: nat, signature: seq<byte>)

  function CheckpointTag(): seq<byte> {
    Ascii("xenia:agent-audit-checkpoint:v1") + [0] + Ascii("xenia-agent-audit-checkpoint-v1") + [0]
  }

  function CheckpointMessage(entryCount: nat, headHash: Bytes32, publicKey: Bytes32, timestamp: nat): seq<byte> {
    CheckpointTag() + BeBytes(entryCount, 8) + headHash + publicKey + BeBytes(timestamp, 8)
  }

  function CheckpointOf(p: Platform, key: SigningKey, entries: seq<Entry>, now: nat): Checkpoint {
    Checkpoint(|entries|, LastHash(entries), p.publicKey(key), now,
               p.sign(key, CheckpointMessage(|entries|, LastHash(entries), p.publicKey(key), now)))
  }

  /** The message is the domain and the schema, each ended by a zero byte, then the count, the head
      hash, the key and the time, with big-endian integers. */
  lemma CheckpointLayout(n: nat, h: Bytes32, k: Bytes32, t: nat)
    requires n < 0x1_0000_0000_0000_0000 && t < 0x1_0000_0000_0000_0000
    ensures var m := CheckpointMessage(n, h, k, t);
            && |m| == 144
            && m[..31] == Ascii("xenia:agent-audit-checkpoint:v1") && m[31] == 0
            && m[32..63] == Ascii("xenia-agent-audit-checkpoint-v1") && m[63] == 0
            && BigU64At(m, 64) == n && m[72..104] == h && m[104..136] == k && BigU64At(m, 136) == t
  {
    var m := CheckpointMessage(n, h, k, t);
    BeEight(n);
    BeEight(t);
    assert m[64..72] == BeBytes(n, 8) && m[136..144] == BeBytes(t, 8);
  }

  /** A checkpoint states the chain's length, head and key and the time given, under a signature
      that verifies over exactly that. */
  lemma CheckpointVerifies(p: Platform, key: SigningKey, entries: seq<Entry>, now: nat)
    requires Sound(p)
    ensures var c := CheckpointOf(p, key, entries, now);
            && c.entryCount == |entries| && c.publicKey == p.publicKey(key) && c.timestamp == now
            && c.headHash == (if entries == [] then Zero32() else entries[|entries| - 1].entryHash)
            && Verifies(p, c)
  {
  }

  predicate Verifies(p: Platform, c: Checkpoint) {
    p.verify(c.publicKey, CheckpointMessage(c.entryCount, c.headHash, c.publicKey, c.timestamp), c.signature)
  }

  /** The signed message determines every 64-bit field of the checkpoint. */
  lemma CheckpointMessageInjective(n: nat, h: Bytes32, k: Bytes32, t: nat, n': nat, h': Bytes32, k': Bytes32, t': nat)
    requires n < Pow256(8) && n' < Pow256(8) && t < Pow256(8) && t' < Pow256(8)
    requires CheckpointMessage(n, h, k, t) == CheckpointMessage(n', h', k', t')
    ensures n == n' && h == h' && k == k' && t == t'
  {
    var a, b := BeBytes(t, 8), BeBytes(t', 8);
    var c, d := BeBytes(n, 8), BeBytes(n', 8);
    FiveFields(CheckpointTag(), c, h, k, a, d, h', k', b);
    BeInjective(n, n', 8);
    BeInjective(t, t', 8);
  }

  lemma FiveFields(tag: seq<byte>, n: seq<byte>, h: seq<byte>, k: seq<byte>, t: seq<byte>,
                   n': seq<byte>, h': seq<byte>, k': seq<byte>, t': seq<byte>)
    requires |n| == |n'| && |h| == |h'| && |k| == |k'|
    requires tag + n + h + k + t == tag + n' + h' + k' + t'
    ensures n == n' && h == h' && k == k' && t == t'
  {
    assert tag + n + h + k + t == tag + (n + (h + (k + t)));
    assert tag + n' + h' + k' + t' == tag + (n' + (h' + (k' + t')));
    Split(tag, n + (h + (k + t)), tag, n' + (h' + (k' + t')));
    Split(n, h + (k + t), n', h' + (k' + t'));
    Split(h, k + t, h', k' + t');
    Split(k, t, k', t');
  }

  // Whole runs.

  datatype LogOp = Record(event: Event, now: int, diskOk: bool) | SignOff(time: nat) | Restart

  datatype LogRun = LogRun(log: LogState, signed: seq<Checkpoint>)

  function Step(p: Platform, key: SigningKey, s: LogRun, op: LogOp): LogRun {
    match op
    case Record(event, now, diskOk) => s.(log := AppendTransactional(p, key, s.log, now, event, diskOk).1)
    case SignOff(time) => s.(signed := s.signed + [CheckpointOf(p, key, s.log.entries, time)])
    case Restart =>
      match Load(p, key, s.log.file)
      case Some(entries) => s.(log := s.log.(entries := entries))
      case None => s
  }

  function Stepper(p: Platform, key: SigningKey): (LogRun, LogOp) -> LogRun {
    (s: LogRun, op: LogOp) => Step(p, key, s, op)
  }

  function Run(p: Platform, key: SigningKey, s: LogRun, ops: seq<LogOp>): LogRun {
    Runs.At(Stepper(p, key), s, ops, |ops|)
  }

  /** The checkpoint is the length and head hash of a prefix of the chain. */
  predicate CommitsToPrefix(c: Checkpoint, entries: seq<Entry>) {
    c.entryCount <= |entries| && c.headHash == LastHash(entries[..c.entryCount])
  }

  /** The chain verifies, a restart would load exactly what is in memory, and every
      checkpoint signed so far verifies and still describes a prefix. */
  predicate Consistent(p: Platform, key: SigningKey, s: LogRun) {
    && ValidChain(p, p.publicKey(key), s.log.entries)
    && Load(p, key, s.log.file) == Some(s.log.entries)
    && (forall c | c in s.signed :: CommitsToPrefix(c, s.log.entries) && Verifies(p, c))
  }

  lemma StepKeepsConsistent(p: Platform, key: SigningKey, s: LogRun, op: LogOp)
    requires Sound(p) && Consistent(p, key, s)
    ensures Consistent(p, key, Step(p, key, s, op))
    ensures s.log.entries <= Step(p, key, s, op).log.entries
  {
    var s' := Step(p, key, s, op);
    match op
    case Record(event, now, diskOk) =>
      if AppendTransactional(p, key, s.log, now, event, diskOk).0 {
        AppendKeepsValid(p, key, s.log.entries, now, event);
        forall c | c in s'.signed ensures CommitsToPrefix(c, s'.log.entries) && Verifies(p, c) {
          assert s'.log.entries[..c.entryCount] == s.log.entries[..c.entryCount];
        }
      }
    case SignOff(time) =>
      assert s.log.entries[..|s.log.entries|] == s.log.entries;
      CheckpointVerifies(p, key, s.log.entries, time);
    case Restart =>
  }

  function SignOffs(ops: seq<LogOp>): nat {
    if ops == [] then 0 else SignOffs(ops[..|ops| - 1]) + if ops[|ops| - 1].SignOff? then 1 else 0
  }

  /** Every sign-off adds its checkpoint of the log as it is, and nothing else signs or unsigns. */
  lemma {:induction false} EverySignOffSigns(p: Platform, key: SigningKey, s: LogRun, ops: seq<LogOp>, n: nat)
    requires n <= |ops|
    ensures |Runs.At(Stepper(p, key), s, ops, n).signed| == |s.signed| + SignOffs(ops[..n])
    ensures n > 0 && ops[n - 1].SignOff? ==>
              var now, before := Runs.At(Stepper(p, key), s, ops, n), Runs.At(Stepper(p, key), s, ops, n - 1);
              now == before.(signed := before.signed + [CheckpointOf(p, key, before.log.entries, ops[n - 1].time)])
  {
    if n > 0 {
      EverySignOffSigns(p, key, s, ops, n - 1);
      assert ops[..n][..n - 1] == ops[..n - 1];
    }
  }

  /** A record operation is the transactional append, and a restart reads the file back. */
  lemma OtherOpsTakeEffect(p: Platform, key: SigningKey, s: LogRun, op: LogOp)
    ensures op.Record? ==> Step(p, key, s, op).log == AppendTransactional(p, key, s.log, op.now, op.event, op.diskOk).1
    ensures op.Restart? && Load(p, key, s.log.file).Some? ==> Load(p, key, s.log.file) == Some(Step(p, key, s, op).log.entries)
  {
  }

  /** On every run of appends, failed writes, checkpoints and restarts the log stays
      consistent and only grows. */
  lemma RunStaysConsistent(p: Platform, key: SigningKey, s: LogRun, ops: seq<LogOp>)
    requires Sound(p) && Consistent(p, key, s)
    ensures Consistent(p, key, Run(p, key, s, ops))
    ensures s.log.entries <= Run(p, key, s, ops).log.entries
  {
    var inv := (x: LogRun) => Consistent(p, key, x) && s.log.entries <= x.log.entries;
    forall x, op | inv(x) ensures inv(Stepper(p, key)(x, op)) {
      StepKeepsConsistent(p, key, x, op);
    }
    Runs.Always(Stepper(p, key), inv, s, ops, |ops|);
  }

  /** A checkpoint pins history for good: any intact chain, from anywhere, whose head
      is a checkpoint signed during the run holds exactly the entries the agent had
      then and still has, or exhibits a break of the hash. */
  lemma CheckpointPinsHistory(p: Platform, key: SigningKey, s: LogRun, ops: seq<LogOp>, c: Checkpoint,
                              other: Bytes32, b: seq<Entry>)
    returns (i: nat, j: nat)
    requires Sound(p) && Consistent(p, key, s) && c in Run(p, key, s, ops).signed
    requires ValidChain(p, other, b) && LastHash(b) == c.headHash
    ensures var log := Run(p, key, s, ops).log.entries;
            && c.entryCount <= |log|
            && (SameHistory(log[..c.entryCount], b) || HashBreaks(p, log[..c.entryCount], b, i, j))
  {
    RunStaysConsistent(p, key, s, ops);
    var log := Run(p, key, s, ops).log.entries;
    assert CommitsToPrefix(c, log);
    PrefixValid(p, p.publicKey(key), log, c.entryCount);
    i, j := HeadHashCommits(p, p.publicKey(key), other, log[..c.entryCount], b);
  }
}
