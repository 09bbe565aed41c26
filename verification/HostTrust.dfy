/** The native host-trust pin store: one fingerprint per (host alias, suite),
    changed only after a confirmation and only if the change reached the disk. */
module HostTrust {
  import opened Bytes
  import Runs

  type Fingerprint = Bytes32
  type Pins = map<string, Fingerprint>

  datatype TrustError =
    | FingerprintChanged(alias: string, pinnedHex: string, presentedHex: string)
    | NotConfirmed(alias: string)
    | ConfirmationUnavailable
    | Storage

  datatype PinOutcome = Matched | TrustedOnFirstUse | Rotated(oldFingerprint: Fingerprint)

  datatype Checked = Trusted(outcome: PinOutcome) | Refused(error: TrustError)

  /** What the confirmation prompt came back with. */
  datatype Answer = Answered(yes: bool) | Unanswered(error: TrustError)

  const CONFIRMED := Answered(true)

  /** JSON text of the pin file: key to hexadecimal fingerprint. */
  type PinCodec = Codec<map<string, string>>

  function Key(alias: string, suite: string): string {
    alias + ":" + suite
  }

  predicate KnownSuite(suite: string) {
    suite == "standard" || suite == "highsec"
  }

  lemma LongerAliasSwallowsColon(alias: string, suite: string, alias': string, suite': string)
    requires Key(alias, suite) == Key(alias', suite')
    ensures |alias| < |alias'| ==> ':' in suite
  {
    if |alias| < |alias'| {
      assert Key(alias', suite')[|alias'|] == ':' == suite[|alias'| - |alias| - 1];
    }
  }

  /** An alias may contain colons; as long as the suite does not, the joined key is unambiguous. */
  lemma KeyInjective(alias: string, suite: string, alias': string, suite': string)
    requires ':' !in suite && ':' !in suite'
    requires Key(alias, suite) == Key(alias', suite')
    ensures alias == alias' && suite == suite'
  {
    LongerAliasSwallowsColon(alias, suite, alias', suite');
    LongerAliasSwallowsColon(alias', suite', alias, suite);
    Split(alias + ":", suite, alias' + ":", suite');
    Split(alias, ":", alias', ":");
  }

  /** Without that restriction two slots can share a key. */
  lemma KeysCanCoincide()
    ensures Key("a:b", "c") == Key("a", "b:c")
  {
    assert Key("a:b", "c") == ['a', ':', 'b', ':', 'c'] == Key("a", "b:c");
  }

  // The stored form.

  function HexPins(pins: Pins): map<string, string> {
    map k | k in pins :: HexEncode(pins[k])
  }

  /** The file maps each key to its fingerprint in lower-case hexadecimal. */
  lemma HexPinsAre(pins: Pins, k: string)
    ensures k in HexPins(pins) <==> k in pins
    ensures k in pins ==> HexPins(pins)[k] == HexEncode(pins[k])
  {
  }

  function FingerprintOf(hex: string): Option<Fingerprint> {
    var b := HexDecode(hex);
    if b.Some? && |b.value| == 32 then Some(b.value) else None
  }

  /** One malformed entry refuses the whole file. */
  function ParsePins(file: map<string, string>): Option<Pins> {
    if forall k | k in file :: FingerprintOf(file[k]).Some?
    then Some(map k | k in file :: FingerprintOf(file[k]).value)
    else None
  }

  predicate IsHex(c: char) {
    '0' <= c <= '9' || 'a' <= c <= 'f' || 'A' <= c <= 'F'
  }

  predicate AllHex(s: string) {
    forall i | 0 <= i < |s| :: IsHex(s[i])
  }

  /** A file parses exactly when every value is 64 hexadecimal digits, of either case, and then each
      fingerprint is the bytes those digits spell. */
  lemma ParsesIff(file: map<string, string>)
    ensures ParsePins(file).Some? <==> forall k | k in file :: |file[k]| == 64 && AllHex(file[k])
    ensures ParsePins(file).Some? ==>
              && ParsePins(file).value.Keys == file.Keys
              && forall k | k in file :: HexDecode(file[k]) == Some(ParsePins(file).value[k])
  {
    forall k | k in file ensures FingerprintOf(file[k]).Some? <==> |file[k]| == 64 && AllHex(file[k]) {
      HexDecodeIff(file[k]);
    }
  }

  lemma {:induction false} HexDecodeIff(s: string)
    ensures HexDecode(s).Some? <==> |s| % 2 == 0 && AllHex(s)
  {
    if |s| >= 2 {
      HexDecodeIff(s[2..]);
      assert AllHex(s) <==> IsHex(s[0]) && IsHex(s[1]) && AllHex(s[2..]) by {
        assert forall i | 2 <= i < |s| :: s[i] == s[2..][i - 2];
      }
    }
  }

  lemma ParseUndoesHex(pins: Pins)
    ensures ParsePins(HexPins(pins)) == Some(pins)
  {
    forall k | k in pins ensures FingerprintOf(HexPins(pins)[k]) == Some(pins[k]) {
      HexDecodesEncoded(pins[k]);
    }
    var file := HexPins(pins);
    assert (map k | k in file :: FingerprintOf(file[k]).value) == pins;
  }

  /** The pins in memory and the bytes on disk (`None` before the first write). */
  datatype PinState = PinState(pins: Pins, file: Option<seq<byte>>)

  function ParsedFile(parsed: Option<map<string, string>>): Option<Pins> {
    if parsed.Some? then ParsePins(parsed.value) else None
  }

  /** The pins a start-up would trust. */
  function Load(json: PinCodec, file: Option<seq<byte>>): Option<Pins> {
    if file.None? then Some(map[]) else ParsedFile(json.decode(file.value))
  }

  /** A restart would trust exactly what is trusted now. */
  predicate Synced(json: PinCodec, st: PinState) {
    Load(json, st.file) == Some(st.pins)
  }

  /** Persist the candidate map and adopt it only if that succeeded. */
  function Adopt(json: PinCodec, st: PinState, candidate: Pins, diskOk: bool): (r: (bool, PinState))
    ensures !r.0 ==> r.1 == st
    ensures r.0 ==> r.1.pins == candidate
  {
    var bytes := json.encode(HexPins(candidate));
    if bytes.Some? && diskOk then (true, PinState(candidate, bytes)) else (false, st)
  }

  lemma AdoptKeepsSynced(json: PinCodec, st: PinState, candidate: Pins, diskOk: bool)
    requires RoundTrips(json) && Synced(json, st)
    ensures Synced(json, Adopt(json, st, candidate, diskOk).1)
  {
    ParseUndoesHex(candidate);
  }

  /** A change reaches memory exactly when it was serialized and written, and memory and file then
      hold it; otherwise both stay as they were. */
  lemma AdoptIff(json: PinCodec, st: PinState, candidate: Pins, diskOk: bool)
    ensures var (ok, st') := Adopt(json, st, candidate, diskOk);
            var bytes := json.encode(HexPins(candidate));
            && (ok <==> bytes.Some? && diskOk)
            && (ok ==> st'.pins == candidate && st'.file == bytes)
            && (!ok ==> st' == st)
  {
  }

  // The operations.

  function CheckPin(json: PinCodec, st: PinState, alias: string, suite: string, fp: Fingerprint, answer: Answer, diskOk: bool)
    : (r: (Checked, PinState))
    ensures r.0.Refused? || r.0 == Trusted(Matched) ==> r.1 == st
    ensures r.0.Trusted? ==> Lookup(r.1.pins, alias, suite) == Some(fp)
    ensures r.0.Trusted? && r.0.outcome != Matched ==> answer == CONFIRMED && r.1.pins == st.pins[Key(alias, suite) := fp]
    ensures r.0.Trusted? && r.0.outcome.Rotated? ==> Lookup(st.pins, alias, suite) == Some(r.0.outcome.oldFingerprint)
    ensures r.0 == Trusted(TrustedOnFirstUse) ==> Lookup(st.pins, alias, suite) == None
  {
    var pinned := Lookup(st.pins, alias, suite);
    if pinned == Some(fp) then (Trusted(Matched), st)
    else match answer
      case Unanswered(error) => (Refused(error), st)
      case Answered(yes) =>
        if !yes then
          (Refused(if pinned.Some? then FingerprintChanged(alias, HexEncode(pinned.value), HexEncode(fp)) else NotConfirmed(alias)), st)
        else
          var (ok, st') := Adopt(json, st, st.pins[Key(alias, suite) := fp], diskOk);
          if !ok then (Refused(Storage), st)
          else if pinned.Some? then (Trusted(Rotated(pinned.value)), st')
          else (Trusted(TrustedOnFirstUse), st')
  }

  /** Every outcome of a check and what it takes: a match asks nobody; otherwise the prompt's own
      error, a no (named after what was pinned, if anything), a failed write, or the new pin. */
  lemma CheckIff(json: PinCodec, st: PinState, alias: string, suite: string, fp: Fingerprint, answer: Answer, diskOk: bool)
    ensures var (r, st') := CheckPin(json, st, alias, suite, fp, answer, diskOk);
            var key := alias + ":" + suite;
            var written := json.encode(HexPins(st.pins[key := fp]));
            && (r == Trusted(Matched) <==> key in st.pins && st.pins[key] == fp)
            && (r != Trusted(Matched) && answer.Unanswered? ==> r == Refused(answer.error))
            && (r != Trusted(Matched) && answer == Answered(false) && key in st.pins ==>
                  r == Refused(FingerprintChanged(alias, HexEncode(st.pins[key]), HexEncode(fp))))
            && (r != Trusted(Matched) && answer == Answered(false) && key !in st.pins ==> r == Refused(NotConfirmed(alias)))
            && (r != Trusted(Matched) && answer == Answered(true) && !(written.Some? && diskOk) ==> r == Refused(Storage))
            && (r != Trusted(Matched) && answer == Answered(true) && written.Some? && diskOk ==>
                  && r == Trusted(if key in st.pins then Rotated(st.pins[key]) else TrustedOnFirstUse)
                  && st'.pins == st.pins[key := fp] && st'.file == written)
            && (r.Refused? || r == Trusted(Matched) ==> st' == st)
  {
    AdoptIff(json, st, st.pins[Key(alias, suite) := fp], diskOk);
  }

  function Lookup(pins: Pins, alias: string, suite: string): Option<Fingerprint> {
    if Key(alias, suite) in pins then Some(pins[Key(alias, suite)]) else None
  }

  function ForgetPin(json: PinCodec, st: PinState, alias: string, suite: string, diskOk: bool): (r: (bool, PinState))
    ensures !r.0 ==> r.1 == st
    ensures r.0 ==> r.1.pins == st.pins - {Key(alias, suite)}
  {
    Adopt(json, st, st.pins - {Key(alias, suite)}, diskOk)
  }

  /** Forgetting always writes; an absent pin is no exception. */
  lemma ForgetIff(json: PinCodec, st: PinState, alias: string, suite: string, diskOk: bool)
    ensures var (ok, st') := ForgetPin(json, st, alias, suite, diskOk);
            var left := st.pins - {alias + ":" + suite};
            && (ok <==> json.encode(HexPins(left)).Some? && diskOk)
            && (ok ==> st'.pins == left) && (!ok ==> st' == st)
  {
    AdoptIff(json, st, st.pins - {Key(alias, suite)}, diskOk);
  }

  /** The pin file: an overwrite succeeds, or fails and leaves the old bytes. */
  class PinFile {
    var bytes: Option<seq<byte>>

    constructor (initial: Option<seq<byte>>)
      ensures bytes == initial
    {
      bytes := initial;
    }

    method Write(b: seq<byte>, diskOk: bool) returns (ok: bool)
      modifies this
      ensures ok == diskOk && bytes == if ok then Some(b) else old(bytes)
    {
      if diskOk {
        bytes := Some(b);
      }
      ok := diskOk;
    }
  }

  class HostTrustStore {
    const json: PinCodec
    const storage: PinFile
    var pins: Pins

    ghost function State(): PinState
      reads this, storage
    {
      PinState(pins, storage.bytes)
    }

    constructor (json: PinCodec, storage: PinFile, pins: Pins)
      ensures this.json == json && this.storage == storage && this.pins == pins
    {
      this.json, this.storage, this.pins := json, storage, pins;
    }

    method Persist(candidate: Pins, diskOk: bool) returns (ok: bool)
      modifies storage
      ensures (ok, if ok then PinState(candidate, storage.bytes) else State()) == Adopt(json, old(State()), candidate, diskOk)
    {
      var bytes := json.encode(HexPins(candidate));
      if bytes.None? {
        return false;
      }
      ok := storage.Write(bytes.value, diskOk);
    }

    method SetPin(key: string, fp: Fingerprint, diskOk: bool) returns (ok: bool)
      modifies this, storage
      ensures (ok, State()) == Adopt(json, old(State()), old(pins)[key := fp], diskOk)
    {
      var candidate := pins[key := fp];
      ok := Persist(candidate, diskOk);
      if ok {
        pins := candidate;
      }
    }

    method Forget(alias: string, suite: string, diskOk: bool) returns (ok: bool)
      modifies this, storage
      ensures (ok, State()) == ForgetPin(json, old(State()), alias, suite, diskOk)
    {
      var candidate := pins - {Key(alias, suite)};
      ok := Persist(candidate, diskOk);
      if ok {
        pins := candidate;
      }
    }

    method Check(alias: string, suite: string, fp: Fingerprint, answer: Answer, diskOk: bool) returns (r: Checked)
      modifies this, storage
      ensures (r, State()) == CheckPin(json, old(State()), alias, suite, fp, answer, diskOk)
    {
      var key := Key(alias, suite);
      if key in pins && pins[key] == fp {
        return Trusted(Matched);
      }
      if answer.Unanswered? {
        return Refused(answer.error);
      }
      if key in pins {
        var pinned := pins[key];
        if !answer.yes {
          return Refused(FingerprintChanged(alias, HexEncode(pinned), HexEncode(fp)));
        }
        var ok := SetPin(key, fp, diskOk);
        r := if ok then Trusted(Rotated(pinned)) else Refused(Storage);
      } else {
        if !answer.yes {
          return Refused(NotConfirmed(alias));
        }
        var ok := SetPin(key, fp, diskOk);
        r := if ok then Trusted(TrustedOnFirstUse) else Refused(Storage);
      }
    }
  }

  /** The parsing loop, in whatever order the map yields its entries. */
  method ParseFile(file: map<string, string>) returns (r: Option<Pins>)
    ensures r == ParsePins(file)
  {
    var todo := file.Keys;
    var pins: Pins := map[];
    while todo != {}
      invariant todo <= file.Keys && pins.Keys == file.Keys - todo
      invariant forall k | k in pins :: FingerprintOf(file[k]) == Some(pins[k])
      decreases todo
    {
      var k :| k in todo;
      var fp := FingerprintOf(file[k]);
      if fp.None? {
        return None;
      }
      pins := pins[k := fp.value];
      todo := todo - {k};
    }
    assert pins == map k | k in file :: FingerprintOf(file[k]).value;
    r := Some(pins);
  }

  /** Fails closed: a file that does not parse completely loads nothing. */
  method LoadStore(json: PinCodec, storage: PinFile) returns (store: HostTrustStore?)
    ensures store == null <==> Load(json, storage.bytes).None?
    ensures store != null ==> fresh(store) && store.json == json && store.storage == storage
                              && Load(json, storage.bytes) == Some(store.pins)
    ensures store == null <==> storage.bytes.Some? && (json.decode(storage.bytes.value).None? || ParsePins(json.decode(storage.bytes.value).value).None?)
    ensures store != null ==> if storage.bytes.None? then store.pins == map[]
                              else json.decode(storage.bytes.value).Some? && ParsePins(json.decode(storage.bytes.value).value) == Some(store.pins)
  {
    if storage.bytes.None? {
      store := new HostTrustStore(json, storage, map[]);
      return;
    }
    var parsed := json.decode(storage.bytes.value);
    if parsed.None? {
      return null;
    }
    var pins := ParseFile(parsed.value);
    if pins.None? {
      return null;
    }
    store := new HostTrustStore(json, storage, pins.value);
  }

  // Whole runs.

  datatype StoreOp =
    | CheckOp(alias: string, suite: string, fp: Fingerprint, answer: Answer, diskOk: bool)
    | ForgetOp(alias: string, suite: string, diskOk: bool)
    | Restart

  function Step(json: PinCodec, st: PinState, op: StoreOp): PinState {
    match op
    case CheckOp(alias, suite, fp, answer, diskOk) => CheckPin(json, st, alias, suite, fp, answer, diskOk).1
    case ForgetOp(alias, suite, diskOk) => ForgetPin(json, st, alias, suite, diskOk).1
    case Restart => if Load(json, st.file).Some? then st.(pins := Load(json, st.file).value) else st
  }

  function Stepper(json: PinCodec): (PinState, StoreOp) -> PinState {
    (st: PinState, op: StoreOp) => Step(json, st, op)
  }

  /** The state before operation `n` of the run. */
  function StateAt(json: PinCodec, st: PinState, ops: seq<StoreOp>, n: nat): PinState
    requires n <= |ops|
  {
    Runs.At(Stepper(json), st, ops, n)
  }

  lemma StepKeepsSynced(json: PinCodec, st: PinState, op: StoreOp)
    requires RoundTrips(json) && Synced(json, st)
    ensures Synced(json, Step(json, st, op))
  {
    match op
    case CheckOp(alias, suite, fp, _, diskOk) => AdoptKeepsSynced(json, st, st.pins[Key(alias, suite) := fp], diskOk);
    case ForgetOp(alias, suite, diskOk) => AdoptKeepsSynced(json, st, st.pins - {Key(alias, suite)}, diskOk);
    case Restart =>
  }

  /** Memory and disk agree in every reachable state, failed writes and restarts included. */
  lemma RunStaysSynced(json: PinCodec, st: PinState, ops: seq<StoreOp>, n: nat)
    requires RoundTrips(json) && Synced(json, st) && n <= |ops|
    ensures Synced(json, StateAt(json, st, ops, n))
  {
    var inv := (x: PinState) => Synced(json, x);
    forall x, op | inv(x) ensures inv(Stepper(json)(x, op)) {
      StepKeepsSynced(json, x, op);
    }
    Runs.Always(Stepper(json), inv, st, ops, n);
  }

  /** An operation on one slot leaves every other slot as it was. */
  lemma OtherSlotsUntouched(json: PinCodec, st: PinState, op: StoreOp, alias: string, suite: string)
    requires Synced(json, st) && KnownSuite(suite)
    requires !op.Restart? ==> KnownSuite(op.suite) && (op.alias != alias || op.suite != suite)
    ensures Lookup(Step(json, st, op).pins, alias, suite) == Lookup(st.pins, alias, suite)
  {
    if !op.Restart? && Key(op.alias, op.suite) == Key(alias, suite) {
      KeyInjective(op.alias, op.suite, alias, suite);
    }
  }

  /** The operation reached the disk and set or removed `key`. */
  predicate ChangesKey(json: PinCodec, st: PinState, op: StoreOp, key: string) {
    match op
    case CheckOp(alias, suite, fp, answer, diskOk) =>
      var r := CheckPin(json, st, alias, suite, fp, answer, diskOk).0;
      Key(alias, suite) == key && r.Trusted? && r.outcome != Matched
    case ForgetOp(alias, suite, diskOk) => Key(alias, suite) == key && ForgetPin(json, st, alias, suite, diskOk).0
    case Restart => false
  }

  function ChangesOf(json: PinCodec, key: string): (PinState, StoreOp) -> bool {
    (st: PinState, op: StoreOp) => ChangesKey(json, st, op, key)
  }

  predicate ConfirmsPin(op: StoreOp, key: string, fp: Fingerprint) {
    op.CheckOp? && Key(op.alias, op.suite) == key && op.fp == fp && op.answer == CONFIRMED
  }

  /** A key present after a step was confirmed by that step, or was there before with the same value. */
  lemma StepEffect(json: PinCodec, st: PinState, op: StoreOp, key: string)
    requires Synced(json, st) && key in Step(json, st, op).pins
    ensures var fp := Step(json, st, op).pins[key];
            if ChangesKey(json, st, op, key)
            then ConfirmsPin(op, key, fp)
            else key in st.pins && st.pins[key] == fp
  {
  }

  /** Where the value of `key` before operation `n` comes from: the last successful change
      to it was a confirmed pin of `fp`, or it was in the file at the start and never changed. */
  predicate TracesBack(json: PinCodec, st: PinState, ops: seq<StoreOp>, n: nat, key: string, fp: Fingerprint) {
    match Runs.LastWhere(Stepper(json), ChangesOf(json, key), st, ops, n)
    case None => key in st.pins && st.pins[key] == fp
    case Some(i) => i < |ops| && ConfirmsPin(ops[i], key, fp)
  }

  lemma PinTracesBack(json: PinCodec, st: PinState, ops: seq<StoreOp>, n: nat, key: string)
    requires RoundTrips(json) && Synced(json, st) && n <= |ops|
    requires key in StateAt(json, st, ops, n).pins
    ensures TracesBack(json, st, ops, n, key, StateAt(json, st, ops, n).pins[key])
  {
    var inv := (x: PinState) => Synced(json, x);
    var get := (x: PinState) => if key in x.pins then Some(x.pins[key]) else None;
    var sets := (op: StoreOp, fp: Fingerprint) => ConfirmsPin(op, key, fp);
    forall x, op | inv(x)
      ensures inv(Stepper(json)(x, op))
      ensures get(Stepper(json)(x, op)).Some? ==>
                if ChangesOf(json, key)(x, op) then sets(op, get(Stepper(json)(x, op)).value) else get(x) == get(Stepper(json)(x, op))
    {
      StepKeepsSynced(json, x, op);
      if key in Step(json, x, op).pins {
        StepEffect(json, x, op, key);
      }
    }
    Runs.Provenance(Stepper(json), inv, get, ChangesOf(json, key), sets, st, ops, n);
  }

  /** On every run, a match means the fingerprint was confirmed by the last successful
      change of that slot, or was in the file from the start and never changed. */
  lemma MatchTracesBack(json: PinCodec, st: PinState, ops: seq<StoreOp>, n: nat)
    requires RoundTrips(json) && Synced(json, st) && n < |ops| && ops[n].CheckOp?
    requires var op := ops[n]; CheckPin(json, StateAt(json, st, ops, n), op.alias, op.suite, op.fp, op.answer, op.diskOk).0 == Trusted(Matched)
    ensures TracesBack(json, st, ops, n, Key(ops[n].alias, ops[n].suite), ops[n].fp)
  {
    PinTracesBack(json, st, ops, n, Key(ops[n].alias, ops[n].suite));
  }
}
