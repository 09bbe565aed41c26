/** Staging of a received file: chunks must arrive strictly in order, and the file is
    published once, when its size and digest are exactly what was offered. */
module ReceiveStaging {
  import opened Bytes
  import Runs

  type HashFn = seq<byte> -> Bytes32

  datatype Outcome = Ok | BadOffset | Overrun | BadSize | BadHash | Clobber

  datatype Staging = Staging(
    expectedSize: nat, expectedHash: Bytes32, received: nat, bytes: seq<byte>, published: bool)

  function Offer(hash: HashFn, payload: seq<byte>): Staging {
    Staging(|payload|, hash(payload), 0, [], false)
  }

  function AppendChunk(s: Staging, offset: nat, data: seq<byte>): (Outcome, Staging) {
    if offset != s.received then (BadOffset, s)
    else if s.received + |data| > s.expectedSize then (Overrun, s)
    else (Ok, s.(bytes := s.bytes + data, received := s.received + |data|))
  }

  function FinishUp(hash: HashFn, s: Staging): (Outcome, Staging) {
    if s.received != s.expectedSize then (BadSize, s)
    else if hash(s.bytes) != s.expectedHash then (BadHash, s)
    else if s.published then (Clobber, s)
    else (Ok, s.(published := true))
  }

  class Receive {
    const hash: HashFn
    const expectedSize: nat
    const expectedHash: Bytes32
    var received: nat
    var bytes: seq<byte>
    var published: bool

    ghost function State(): Staging
      reads this
    {
      Staging(expectedSize, expectedHash, received, bytes, published)
    }

    constructor (hash: HashFn, payload: seq<byte>)
      ensures this.hash == hash && State() == Offer(hash, payload)
    {
      this.hash, expectedSize, expectedHash := hash, |payload|, hash(payload);
      received, bytes, published := 0, [], false;
    }

    method Append(offset: nat, data: seq<byte>) returns (r: Outcome)
      modifies this
      ensures (r, State()) == AppendChunk(old(State()), offset, data)
      ensures r == Ok <==> offset == old(received) && old(received) + |data| <= expectedSize
      ensures bytes == if r == Ok then old(bytes) + data else old(bytes)
    {
      if offset != received {
        return BadOffset;
      }
      var end := received + |data|;
      if end > expectedSize {
        return Overrun;
      }
      bytes := bytes + data;
      received := end;
      r := Ok;
    }

    method Finish() returns (r: Outcome)
      modifies this
      ensures (r, State()) == FinishUp(hash, old(State()))
      ensures r == Ok <==> received == expectedSize && hash(bytes) == expectedHash && !old(published)
      ensures bytes == old(bytes) && published == (old(published) || r == Ok)
    {
      if received != expectedSize {
        return BadSize;
      }
      if hash(bytes) != expectedHash {
        return BadHash;
      }
      if published {
        return Clobber;
      }
      published := true;
      r := Ok;
    }
  }

  // Runs.

  datatype Op = Append(offset: nat, data: seq<byte>) | Finish

  function Step(hash: HashFn, s: Staging, op: Op): (Outcome, Staging) {
    match op
    case Append(offset, data) => AppendChunk(s, offset, data)
    case Finish => FinishUp(hash, s)
  }

  /** The staging state together with the chunks accepted so far, in the order they were accepted. */
  datatype Logged = Logged(staging: Staging, chunks: seq<(nat, seq<byte>)>)

  function LoggedStep(hash: HashFn, l: Logged, op: Op): Logged {
    var (r, s) := Step(hash, l.staging, op);
    Logged(s, if op.Append? && r.Ok? then l.chunks + [(op.offset, op.data)] else l.chunks)
  }

  function Stepper(hash: HashFn): (Logged, Op) -> Logged {
    (l: Logged, op: Op) => LoggedStep(hash, l, op)
  }

  function LoggedAt(hash: HashFn, payload: seq<byte>, ops: seq<Op>, n: nat): Logged
    requires n <= |ops|
  {
    Runs.At(Stepper(hash), Logged(Offer(hash, payload), []), ops, n)
  }

  /** Each chunk starts where the one before it ended, and together they are `bytes`. */
  predicate Tiles(chunks: seq<(nat, seq<byte>)>, bytes: seq<byte>)
    decreases |chunks|
  {
    if chunks == [] then bytes == []
    else
      var (offset, data) := chunks[|chunks| - 1];
      && offset + |data| == |bytes| && bytes[offset..] == data
      && Tiles(chunks[..|chunks| - 1], bytes[..offset])
  }

  /** Within the offer at all times, and complete once published. */
  predicate Sound(hash: HashFn, payload: seq<byte>, s: Staging) {
    && s.expectedSize == |payload| && s.expectedHash == hash(payload)
    && s.received == |s.bytes| <= s.expectedSize
    && (s.published ==> |s.bytes| == |payload| && hash(s.bytes) == hash(payload))
  }

  lemma StepKeepsSound(hash: HashFn, payload: seq<byte>, s: Staging, op: Op)
    requires Sound(hash, payload, s)
    ensures Sound(hash, payload, Step(hash, s, op).1)
    ensures !Step(hash, s, op).0.Ok? || s.published ==> Step(hash, s, op).1 == s
  {
    if op.Append? && s.published && |op.data| == 0 {
      assert s.bytes + op.data == s.bytes;
    }
  }

  lemma StepKeepsTiling(hash: HashFn, payload: seq<byte>, l: Logged, op: Op)
    requires Sound(hash, payload, l.staging) && Tiles(l.chunks, l.staging.bytes)
    ensures Tiles(LoggedStep(hash, l, op).chunks, LoggedStep(hash, l, op).staging.bytes)
  {
    var s := l.staging;
    if op.Append? && Step(hash, s, op).0.Ok? {
      var all, bytes := l.chunks + [(op.offset, op.data)], s.bytes + op.data;
      assert all[..|all| - 1] == l.chunks;
      assert bytes[|s.bytes|..] == op.data && bytes[..|s.bytes|] == s.bytes;
    }
  }

  /** On every run the accepted chunks tile [0, received) in order, never pass the offered
      size, and once published the bytes have the offered size and digest. */
  lemma AcceptedChunksTile(hash: HashFn, payload: seq<byte>, ops: seq<Op>, n: nat)
    requires n <= |ops|
    ensures var l := LoggedAt(hash, payload, ops, n); Sound(hash, payload, l.staging) && Tiles(l.chunks, l.staging.bytes)
  {
    var inv := (l: Logged) => Sound(hash, payload, l.staging) && Tiles(l.chunks, l.staging.bytes);
    forall l, op | inv(l) ensures inv(Stepper(hash)(l, op)) {
      StepKeepsSound(hash, payload, l.staging, op);
      StepKeepsTiling(hash, payload, l, op);
    }
    Runs.Always(Stepper(hash), inv, Logged(Offer(hash, payload), []), ops, n);
  }

  /** A refused call changes nothing, and neither does any call after publication. */
  lemma RefusalsAndLateCallsChangeNothing(hash: HashFn, payload: seq<byte>, ops: seq<Op>, n: nat)
    requires n < |ops|
    ensures var s := LoggedAt(hash, payload, ops, n).staging;
            !Step(hash, s, ops[n]).0.Ok? || s.published ==> Step(hash, s, ops[n]).1 == s
  {
    AcceptedChunksTile(hash, payload, ops, n);
    StepKeepsSound(hash, payload, LoggedAt(hash, payload, ops, n).staging, ops[n]);
  }

  /** What was published is what was offered, or the two form a digest collision; and it
      stays exactly that for the rest of the run. */
  lemma {:induction false} PublishedIsTheOffer(hash: HashFn, payload: seq<byte>, ops: seq<Op>, n: nat, m: nat)
    requires n <= m <= |ops| && LoggedAt(hash, payload, ops, n).staging.published
    ensures LoggedAt(hash, payload, ops, m).staging == LoggedAt(hash, payload, ops, n).staging
    ensures var got := LoggedAt(hash, payload, ops, m).staging.bytes; got == payload || Collision(hash, got, payload)
    decreases m - n
  {
    AcceptedChunksTile(hash, payload, ops, n);
    if m > n {
      PublishedIsTheOffer(hash, payload, ops, n, m - 1);
      RefusalsAndLateCallsChangeNothing(hash, payload, ops, m - 1);
    }
  }

  /** A chunk is taken exactly at the current end and within the offer; each refusal has one cause. */
  lemma AppendIff(s: Staging, offset: nat, data: seq<byte>)
    ensures var (r, s') := AppendChunk(s, offset, data);
            && (r == BadOffset <==> offset != s.received)
            && (r == Overrun <==> offset == s.received && s.received + |data| > s.expectedSize)
            && (r == Ok <==> offset == s.received && s.received + |data| <= s.expectedSize)
            && s' == if r == Ok then s.(bytes := s.bytes + data, received := s.received + |data|) else s
  {
  }

  lemma FinishIff(hash: HashFn, s: Staging)
    ensures var (r, s') := FinishUp(hash, s);
            && (r == BadSize <==> s.received != s.expectedSize)
            && (r == BadHash <==> s.received == s.expectedSize && hash(s.bytes) != s.expectedHash)
            && (r == Clobber <==> s.received == s.expectedSize && hash(s.bytes) == s.expectedHash && s.published)
            && (r == Ok <==> s.received == s.expectedSize && hash(s.bytes) == s.expectedHash && !s.published)
            && s' == if r == Ok then s.(published := true) else s
  {
  }

  /** The pieces, each at the place where the ones before it end. */
  function InOrder(pieces: seq<seq<byte>>, from: nat): seq<Op>
    decreases |pieces|
  {
    if pieces == [] then [] else [Append(from, pieces[0])] + InOrder(pieces[1..], from + |pieces[0]|)
  }

  function Joined(pieces: seq<seq<byte>>): seq<byte>
    decreases |pieces|
  {
    if pieces == [] then [] else pieces[0] + Joined(pieces[1..])
  }

  function AppendAll(hash: HashFn, s: Staging, ops: seq<Op>): (bool, Staging)
    decreases |ops|
  {
    if ops == [] then (true, s)
    else
      var (r, s') := Step(hash, s, ops[0]);
      var (rest, end) := AppendAll(hash, s', ops[1..]);
      (r == Ok && rest, end)
  }

  lemma {:induction false} PiecesAreTaken(hash: HashFn, s: Staging, pieces: seq<seq<byte>>)
    requires s.received == |s.bytes| && |s.bytes| + |Joined(pieces)| <= s.expectedSize
    ensures AppendAll(hash, s, InOrder(pieces, s.received))
            == (true, s.(bytes := s.bytes + Joined(pieces), received := s.received + |Joined(pieces)|))
    decreases |pieces|
  {
    if pieces == [] {
      assert s.bytes + [] == s.bytes;
    } else {
      var s' := s.(bytes := s.bytes + pieces[0], received := s.received + |pieces[0]|);
      PiecesAreTaken(hash, s', pieces[1..]);
      assert s.bytes + pieces[0] + Joined(pieces[1..]) == s.bytes + (pieces[0] + Joined(pieces[1..]));
      assert InOrder(pieces, s.received)[1..] == InOrder(pieces[1..], s'.received);
    }
  }

  /** However the payload is cut, sending the pieces in order and finishing publishes it. */
  lemma InOrderPiecesPublish(hash: HashFn, pieces: seq<seq<byte>>)
    ensures var (taken, s) := AppendAll(hash, Offer(hash, Joined(pieces)), InOrder(pieces, 0));
            && taken && s.bytes == Joined(pieces)
            && Step(hash, s, Finish) == (Ok, s.(published := true))
  {
    PiecesAreTaken(hash, Offer(hash, Joined(pieces)), pieces);
    assert [] + Joined(pieces) == Joined(pieces);
  }
}
