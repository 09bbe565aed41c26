# Xenia peer: a verified model

Dafny 4.11 models of the parts of the Xenia peer repository whose correctness is hardest to
see by reading, with proofs of what they promise. `dafny verify dfyconfig.toml` checks all of it.

| module | what it models |
|---|---|
| `Bytes`, `Utf8`, `Runs` | fixed-width integers, hex and UTF-8 as round trips; runs of a step function, their invariants, and which input a stored value comes from |
| `EnvelopeCodec`, `EnvelopeDecoder` | the XZKENV01 proof-envelope format: encoder and parser as functions, and the in-place cursor and buffer that compute them |
| `EnvelopeLayout`, `EnvelopeRefusals` | the bytes of a frame, offset by offset, and the error of every kind of bad frame |
| `TransportProfile` | the canonical profile encoding, the V1 and V11 context digests, the trace rule |
| `AuditLog` | the operator agent's signed hash chain, its transactional append, checkpoints and restarts |
| `HostTrust` | the pin store: trust on first use, rotation, forget, the pin file |
| `Agent` | the request handlers over both stores, with the rollback of a pin whose event could not be recorded |
| `AgentAnswers` | what each answer means, request kind by request kind, and the records it leaves over a run |
| `TrustInterleaving`, `TrustOrdering` | concurrent host-trust checks, one atomic step per locked section; when the log they write agrees with the pins |
| `RequestInterleaving` | whole requests served concurrently, stage by stage, related to the sequential handlers and to the trust checks above |
| `HandshakeTable`, `RateLimit`, `AgentSession` | pending handshakes with lazy expiry, the fixed-window limiter, minted and verified sessions |
| `ReceiveStaging` | chunked receive with a digest check before publication |
| `FileTree`, `Normalization`, `RollbackByAccident` | a tree with explicit directories; the plan that moves paths and the rollback script it writes; a run that its script restores by accident |

Hashes, MACs, signatures and JSON are function values, quantified over in every theorem. Of
codecs only the round trip is assumed, of signatures only that a fresh signature verifies.
Where the source relies on collision resistance, the theorem says "equal, or here is a
break of the hash". Clocks, disk outcomes, prompt answers and random identifiers are inputs of each step.

Objects the source updates in place are classes whose methods are proved equal to a
specification function on values; the run-level theorems are about those functions. What each of
those functions computes is stated a second time without it, in plain arithmetic, at byte offsets
or case by case (`FrameLayout`, `LiveIff`, `ActionIff` and the like).

## Main results

* Under any size limits, a frame decodes to an envelope if and only if it is the encoding of a
  well-formed one within the frame limit, so no valid frame is a prefix of another. The checks
  made ahead of a field only choose the reason for a refusal, except the frame limit, which
  decides nothing if and only if the largest envelope the other limits allow fits it.
* A head hash, and so a signed checkpoint, commits to the whole audit history: any intact chain
  with that head holds the same entries the agent still has, or a break of the hash is located.
* In every run, pins and log agree with their files across failed writes and restarts; a pin
  match traces back to the confirmation that set it; the non-trust audit events are
  exactly the released answers that owe one, in order. A revocation, key replacement or broad
  grant is released only after its own yes, and from then on the log holds its record.
* The sequential runs whose pins always agree with the replayed log are exactly those in which
  every lost rollback concerns a fingerprint the log already records last for its slot.
* Under any interleaving every pin is audited, still being handled, or what a failed rollback
  write left in its slot. There is never a pin without record or task exactly when no failed
  rollback concerns a pin that no event names and no other task answers for.
* Under interleaving the log need not agree with the pins: two requests that pin one slot in turn
  can record in the opposite order, with no write failing. Every pin in a free slot is the last one
  logged, throughout, exactly when each record that frees its slot names the pin there, each failed
  rollback that frees its slot leaves what is logged last, and no other trust event contradicts a
  pin. Keeping two requests from being busy with one slot is enough, and links rotations too.
* Served alone, a request's stages are the sequential handler; interleaved, they are steps of the
  trust checks above, so the exact conditions hold for whole requests. Each released answer that
  owes an audit event has its own record at every point, and there are no others whenever no
  request is between its record and its answer.
* The lazily expiring handshake table answers like one that drops entries the moment they expire.
* Two windows' worth is the most the limiter admits in any span of one window, and it is reached.
* **Rollback of a normalization is not always a rollback.** A later move may create a directory
  where an earlier source was; the script's `mv` then moves the tree inside it. `Clean` says that
  no move does that. A clean run is restored completely, leaving only new directories behind.
  When every tree moved holds a file, undoing the run from each of its points restores the files
  as they were at that point if and only if the run is clean. Both provisos are needed: a misplaced
  empty directory goes unnoticed (`EmptyDirectoryIsRestoredAnyway`), and over a whole script two
  misplacements can cancel (`RestoredByAccident`). `BadPlanLosesItsFirstFile` is a plan of two
  moves whose script leaves its first file inside a directory of that name.

## Where the code and its documentation differ

* The handshake module's comments say that beginning a handshake purges expired entries. The
  method does not; its one caller purges first (`apps/xenia-operator-agent/src/main.rs:1088-1093`).
  `LazyTableIsIdeal` is proved for the caller, and `ExpiredEntriesFillTheTable` shows the method alone differs.
* The Python decoder raises a Unicode error rather than its own error on malformed text; the
  model counts it as the refusal `NotUtf8`.

## Model

| member | source | states |
|---|---|---|
| `EnvelopeCodec.DecodeIff` | scripts/model_check_zk_binary_codec_v1.py:42-64 | for any limits, decoding yields `e` if and only if `e` is within them, the frame is its encoding, and it is within the frame limit if that is checked, whatever ahead-of-field checks are in force |
| `EnvelopeCodec.SelfDelimiting` | scripts/model_check_zk_binary_codec_v1.py:69-76 | no accepted frame is a strict prefix of another |
| `EnvelopeCodec.GuardsNeverDecide` | scripts/model_check_zk_binary_codec_v1.py:42-64 | the blob and minimum-size checks never change acceptance or the decoded value, nor does the frame check on a frame within its limit or where the other limits keep every envelope within it |
| `EnvelopeCodec.FrameCheckIsIdleIff` | crates/xenia-zk-codec/src/lib.rs:153-242 | for any policy, the frame check changes no verdict if and only if 387 + proof limit + entry limit * (38 + signature limit) is within the frame limit |
| `EnvelopeCodec.LimitsInUse` | fuzz/fuzz_targets/fuzz_zk_envelope_codec.rs:11-17 | that bound is 590,363 bytes and met by the reference limits, and 164,531 bytes and not met by the fuzz target's |
| `EnvelopeCodec.FrameFits` | scripts/model_check_zk_binary_codec_v1.py:10-23 | every well-formed envelope encodes into at most that many bytes |
| `EnvelopeCodec.LargestSize` | scripts/model_check_zk_binary_codec_v1.py:10-23 | and one takes exactly that many |
| `EnvelopeCodec.EnvelopeSound` | scripts/model_check_zk_binary_codec_v1.py:42-64 | what the parser consumed is exactly the encoding of the well-formed envelope it returns |
| `EnvelopeCodec.EnvelopeComplete` | scripts/model_check_zk_binary_codec_v1.py:16-23 | an encoding followed by anything parses to the envelope and leaves exactly what follows |
| `EnvelopeLayout.FrameLayout` | scripts/model_check_zk_binary_codec_v1.py:10-23 | a frame begins with the bytes of `XZKENV01`, and every field of the envelope is read back at its offset by plain arithmetic on the bytes, little-endian, with texts and blobs after their lengths |
| `EnvelopeLayout.SampleFrame` | scripts/model_check_zk_binary_codec_v1.py:16-23 | the script's sample envelope encodes to its 419 literal bytes |
| `EnvelopeRefusals.FrameRefused` | scripts/model_check_zk_binary_codec_v1.py:42-64 | a frame that is empty or over the limit is refused as such |
| `EnvelopeRefusals.MagicRefused` | scripts/model_check_zk_binary_codec_v1.py:42-64 | any other first eight bytes are a bad magic, fewer are a truncation |
| `EnvelopeRefusals.TextRefused` | scripts/model_check_zk_binary_codec_v1.py:42-64 | a text over 64 bytes or not UTF-8, in any of the three places, is refused with its own error |
| `EnvelopeRefusals.ReservedRefused` | scripts/model_check_zk_binary_codec_v1.py:42-64 | a statement version or proof system of zero is refused as reserved |
| `EnvelopeRefusals.ProofRefused` | scripts/model_check_zk_binary_codec_v1.py:26-40 | a proof over its limit, or longer than what is left of the frame, is refused, each with its own error |
| `EnvelopeRefusals.CountRefused` | scripts/model_check_zk_binary_codec_v1.py:42-64 | a record count over the limit, or one that 38 bytes a record cannot fit, is refused, each with its own error |
| `EnvelopeRefusals.RecordRefused` | scripts/model_check_zk_binary_codec_v1.py:42-64 | after any number of good records, suite zero, a signature over its limit or beyond the frame are refused |
| `EnvelopeRefusals.TrailingRefused` | scripts/model_check_zk_binary_codec_v1.py:42-64 | anything after the last record is refused |
| `EnvelopeDecoder.Cursor.Take` | scripts/model_check_zk_binary_codec_v1.py:26-40 | advances by n and returns those bytes, or refuses a truncated frame |
| `EnvelopeDecoder.Cursor.Text` | scripts/model_check_zk_binary_codec_v1.py:26-40 | reads one length-prefixed text, refusing one that is too long, truncated or not UTF-8 |
| `EnvelopeDecoder.Cursor.Blob` | scripts/model_check_zk_binary_codec_v1.py:26-40 | reads one bounded blob, refusing it before reading if it cannot fit the rest of the frame |
| `EnvelopeDecoder.Cursor.AuthList` | scripts/model_check_zk_binary_codec_v1.py:42-64 | the loop over authentication records computes n parser steps in order, stopping at the first refusal |
| `EnvelopeDecoder.DecodeFrame` | scripts/model_check_zk_binary_codec_v1.py:42-64 | the cursor-based decoder returns `e` exactly on the encoding of a well-formed `e` within the frame limit, and otherwise the refusal the parser gives |
| `EnvelopeDecoder.EncodeFrame` | crates/xenia-zk-codec/src/lib.rs:87-150 | the checking, buffer-building encoder writes a frame that decodes to what it was given, and refuses exactly the envelopes no frame decodes to |
| `Utf8.ValidIffEncoding` | scripts/model_check_zk_binary_codec_v1.py:26-40 | the accepted text bytes are exactly the UTF-8 encodings of text (section 4 of RFC 3629) |
| `Utf8.DecodesEncoded` | scripts/model_check_zk_binary_codec_v1.py:12-14 | encoded text is valid and decodes to itself |
| `Utf8.Examples` | scripts/model_check_zk_binary_codec_v1.py:42-64 | the encodings given as examples in section 7 of RFC 3629 |
| `TransportProfile.ProfilePrefixFree` | scripts/model_check_transport_session_profile_v1.py:57-70 | canonical profile encodings are injective and prefix-free |
| `TransportProfile.ContextDigestBinds` | scripts/model_check_transport_session_profile_v1.py:73-85 | equal V1 context digests mean equal profile and capabilities, or a collision |
| `TransportProfile.DigestV11Binds` | scripts/model_check_transport_session_v11.py:14-16 | the same for V11, where the profile carries no length of its own |
| `TransportProfile.ValidTrace` | scripts/model_check_transport_session_v11.py:31-39 | a trace is accepted if and only if capabilities occur exactly once, before every payload |
| `TransportProfile.ProfileLayout` | scripts/model_check_transport_session_profile_v1.py:57-70 | the fields of a canonical profile in order, each integer as its big-endian digits |
| `TransportProfile.ContextLayout` | scripts/model_check_transport_session_profile_v1.py:73-85 | the V1 context body is seven length-prefixed fields in order |
| `TransportProfile.LabelTexts` | scripts/model_check_transport_session_profile_v1.py:73-85 | the context and envelope labels, letter by letter |
| `TransportProfile.HandshakeLabelTexts` | scripts/model_check_transport_session_profile_v1.py:73-85 | the suite, transcript and key-schedule labels, letter by letter |
| `TransportProfile.BodyV11Layout` | scripts/model_check_transport_session_v11.py:14-16 | the V11 body is the bare profile, then the length-prefixed capabilities |
| `AuditLog.VerifyEntry` | apps/xenia-operator-agent/src/audit_log.rs:370-406 | an entry passes if and only if index, link, hash and signature hold; the error names the first that fails |
| `AuditLog.VerifyChain` | apps/xenia-operator-agent/src/audit_log.rs:370-406 | accepts exactly the intact chains; otherwise reports the least bad index and its first failing check |
| `AuditLog.EntryMeans` | apps/xenia-operator-agent/src/audit_log.rs:370-406 | an entry is valid if and only if its number is its index, its link is the previous hash (32 zero bytes at first), its hash is that of its serialized content, and its signature over the hash verifies |
| `AuditLog.ChainMeans` | apps/xenia-operator-agent/src/audit_log.rs:370-406 | a chain is valid if and only if every entry is |
| `AuditLog.HeadHashCommits` | apps/xenia-operator-agent/src/audit_log.rs:239-253 | intact chains with one head hash hold the same entries, or two entries collide, or one chain is empty and an entry of the other hashes to zero; the proof locates which |
| `AuditLog.AppendKeepsValid` | apps/xenia-operator-agent/src/audit_log.rs:321-340 | appending to an intact chain leaves it intact |
| `AuditLog.AppendIff` | apps/xenia-operator-agent/src/audit_log.rs:321-362 | an append adds one entry, with each field given, and leaves the file holding the whole list; it changes nothing otherwise, and fails only if a serializer or the disk does |
| `AuditLog.AgentAuditChain.Append` | apps/xenia-operator-agent/src/audit_log.rs:346-362 | an entry is kept in memory if and only if the list was written; a failed write leaves memory and file as they were |
| `AuditLog.LoadVerified` | apps/xenia-operator-agent/src/audit_log.rs:465-477 | no chain if and only if the file exists and does not parse or does not verify; otherwise the parsed entries, or none if there is no file |
| `AuditLog.LoadIff` | apps/xenia-operator-agent/src/audit_log.rs:465-477 | the same for the value a start-up trusts, which the run-level results are about |
| `AuditLog.LogFile.Overwrite` | apps/xenia-operator-agent/src/audit_log.rs:490-498 | the file holds the new bytes or, on failure, the old ones |
| `AuditLog.CheckpointMessageInjective` | apps/xenia-operator-agent/src/audit_log.rs:440-456 | the signed checkpoint message determines count, head, key and time |
| `AuditLog.CheckpointLayout` | apps/xenia-operator-agent/src/audit_log.rs:440-456 | the 144 bytes of a checkpoint message: both tags, letter by letter, and the four fields at their offsets |
| `AuditLog.CheckpointVerifies` | apps/xenia-operator-agent/src/audit_log.rs:300-319 | a checkpoint carries the length, head and key of the chain and the time given, and its signature verifies over exactly those |
| `AuditLog.EverySignOffSigns` | apps/xenia-operator-agent/src/audit_log.rs:300-319 | on every run each sign-off adds its checkpoint of the log as it stands, and nothing else adds or removes one |
| `AuditLog.OtherOpsTakeEffect` | apps/xenia-operator-agent/src/audit_log.rs:346-362 | a record operation is the transactional append and a restart reads the file |
| `AuditLog.RunStaysConsistent` | apps/xenia-operator-agent/src/audit_log.rs:300-362 | over any run of appends, failed writes, checkpoints and restarts the chain is intact, equals what the file would load, extends every checkpoint signed, each of which verifies, and only grows |
| `AuditLog.CheckpointPinsHistory` | apps/xenia-operator-agent/src/audit_log.rs:300-319 | an intact chain whose head is a signed checkpoint's, empty ones included, equals that prefix of the agent's present log, or such a break of the hash is located |
| `HostTrust.KeyInjective` | apps/xenia-operator-agent/src/host_trust.rs:261-263 | the joined key tells slots apart when suites hold no colon, colons in aliases included |
| `HostTrust.KeysCanCoincide` | apps/xenia-operator-agent/src/host_trust.rs:261-263 | with a colon in the suite two slots can share a key |
| `HostTrust.ParseUndoesHex` | apps/xenia-operator-agent/src/host_trust.rs:243-259 | parsing the written hex map gives back the pins |
| `HostTrust.ParsesIff` | apps/xenia-operator-agent/src/host_trust.rs:243-259 | a file parses if and only if every value is 64 hexadecimal digits of either case, and the pins are what they spell |
| `HostTrust.HexPinsAre` | apps/xenia-operator-agent/src/host_trust.rs:410-420 | the written map has the same keys, each with its fingerprint in hexadecimal |
| `Bytes.HexDigitsOf` | apps/xenia-operator-agent/src/host_trust.rs:410-420 | a byte is written as two lower-case digits, the high one first |
| `Bytes.HexDecodeDigits` | apps/xenia-operator-agent/src/host_trust.rs:243-259 | and read back as sixteen times the first digit plus the second |
| `HostTrust.ParseFile` | apps/xenia-operator-agent/src/host_trust.rs:243-259 | the parsing loop, in any iteration order, returns all pins or fails if any value is not 32 bytes of hex |
| `HostTrust.LoadStore` | apps/xenia-operator-agent/src/host_trust.rs:213-235 | fails if and only if the file exists and does not decode or parse; otherwise the parsed pins, or none if there is no file |
| `HostTrust.HostTrustStore.Persist` | apps/xenia-operator-agent/src/host_trust.rs:410-420 | the candidate reaches the file or the file is unchanged |
| `HostTrust.HostTrustStore.SetPin` | apps/xenia-operator-agent/src/host_trust.rs:398-404 | memory adopts the new pin if and only if the write succeeded |
| `HostTrust.HostTrustStore.Forget` | apps/xenia-operator-agent/src/host_trust.rs:371-378 | always writes the map without the pin and drops it from memory if and only if that succeeded; a failed write is a failure even for an absent pin |
| `HostTrust.HostTrustStore.Check` | apps/xenia-operator-agent/src/host_trust.rs:299-356 | match, first use and rotation, with every refusal leaving memory and file unchanged |
| `HostTrust.AdoptIff` | apps/xenia-operator-agent/src/host_trust.rs:398-420 | a change reaches memory and file if and only if it is serialized and written, and neither otherwise |
| `HostTrust.CheckIff` | apps/xenia-operator-agent/src/host_trust.rs:299-356 | every outcome of a check and the exact case in which it arises: match, prompt error, either refusal, failed write, first use, rotation |
| `HostTrust.ForgetIff` | apps/xenia-operator-agent/src/host_trust.rs:371-378 | exactly the named pin goes, if and only if the rest is serialized and written |
| `HostTrust.RunStaysSynced` | apps/xenia-operator-agent/src/host_trust.rs:398-420 | memory equals what a restart would load in every reachable state |
| `HostTrust.OtherSlotsUntouched` | apps/xenia-operator-agent/src/host_trust.rs:299-378 | an operation on one slot leaves every other slot's pin alone |
| `HostTrust.MatchTracesBack` | apps/xenia-operator-agent/src/host_trust.rs:299-356 | a match means that fingerprint was confirmed by the last change of the slot, or was in the initial file and never changed |
| `Agent.OperatorAgent.RecordAuditEvent` | apps/xenia-operator-agent/src/main.rs:1412-1431 | records the event transactionally and touches no pin |
| `Agent.OperatorAgent.CheckHostTrust` | apps/xenia-operator-agent/src/main.rs:1289-1359 | check, record, and forget the pin if recording failed, in that order |
| `Agent.OperatorAgent.ConfirmAction` | apps/xenia-operator-agent/src/main.rs:866-928 | releases only after a yes and a recorded event |
| `Agent.OperatorAgent.SignTyped` | apps/xenia-operator-agent/src/main.rs:779-852 | shape, host trust, evidence, confirmation and recording in the handlers' order |
| `Agent.OperatorAgent.Serve` | apps/xenia-operator-agent/src/main.rs:704-1184 | each request's answer and effect on both stores |
| `Agent.ReleasesAreAudited` | apps/xenia-operator-agent/src/main.rs:538-1022 | over every run the non-trust audit events are exactly those of released answers that owe one, in order |
| `Agent.ReleasesAreConfirmed` | apps/xenia-operator-agent/src/main.rs:779-1022 | no revocation, key replacement or broad grant is released without its own yes |
| `AgentAnswers.ReleasedRevocation` | apps/xenia-operator-agent/src/main.rs:866-928 | a released revocation was well formed, for a host now pinned, with good evidence; the operator said yes; the log ends with `RevocationSigned` of its target and normalized endpoint |
| `AgentAnswers.ReleasedReplacement` | apps/xenia-operator-agent/src/main.rs:940-1022 | the same for a key replacement, with `KeyReplacementSigned` of target, new key and endpoint |
| `AgentAnswers.ReleasedBroadGrant` | apps/xenia-operator-agent/src/main.rs:779-852 | the same for an approval whose scope contains any of the seven phrases, written out, with `BroadGrantConfirmed` |
| `AgentAnswers.ReleasedNarrowConsent` | apps/xenia-operator-agent/src/main.rs:779-852 | a refusal of consent, or an approval of a scope with none of the phrases, adds none but host-trust events |
| `AgentAnswers.ReleasedChallenge` | apps/xenia-operator-agent/src/main.rs:704-735 | a released challenge was attested, for a host now pinned, and adds none but host-trust events |
| `AgentAnswers.ReleasedHandshake` | apps/xenia-operator-agent/src/main.rs:1119-1184 | a finished handshake had its entry taken and the host it proved is pinned |
| `AgentAnswers.ReleasedSession` | apps/xenia-operator-agent/src/main.rs:538-554 | a released pairing or refresh ends the log with `Paired` or `SessionRefreshed` |
| `AgentAnswers.ReleasedRecordsStay` | apps/xenia-operator-agent/src/main.rs:538-1022 | over every run, a released answer of these kinds was confirmed if it is one to confirm, and from then on the log holds its record at a place that was new |
| `AgentAnswers.ActionIff` | apps/xenia-operator-agent/src/main.rs:538-1022 | the event a request owes is exactly the one listed above for its kind, which carries the run-level and interleaved results over |
| `AgentAnswers.BroadIfPhrase` | apps/xenia-operator-agent/src/main.rs:748-756 | a scope with one of the seven phrases anywhere in it is broad |
| `AgentAnswers.BroadOnlyIfPhrase` | apps/xenia-operator-agent/src/main.rs:748-756 | a broad scope contains one of them |
| `AgentAnswers.SignReleases` | apps/xenia-operator-agent/src/main.rs:704-1022 | what any released signature implies: shape, pinned host, evidence, and confirmation and record where an event is owed |
| `AgentAnswers.SigningAnswers` | apps/xenia-operator-agent/src/main.rs:704-1022 | every answer to a signing request, refusals included, with the exact cause and the resulting stores |
| `AgentAnswers.PinnedHostAnswers` | apps/xenia-operator-agent/src/main.rs:704-1022 | for a pinned host, each kind of request stands or falls with its own fields, evidence and confirmation, and is released where these hold |
| `AgentAnswers.TrustAnswers` | apps/xenia-operator-agent/src/main.rs:1289-1359 | a trust check is denied, unrecorded or passed exactly as pin store and log decide, with its own event as the new last entry |
| `AgentAnswers.SpaceIff` | apps/xenia-operator-agent/src/main.rs:1235-1237 | the white space that trimming removes is that of the Unicode standard |
| `AgentAnswers.TrimIs` | apps/xenia-operator-agent/src/main.rs:1235-1237 | trimming removes white space at both ends, all of it and nothing else |
| `AgentAnswers.TrimmedAway` | apps/xenia-operator-agent/src/main.rs:1235-1237 | nothing is left if and only if all was white space |
| `AgentAnswers.NormalizedIs` | apps/xenia-operator-agent/src/main.rs:1235-1237 | a normalized endpoint is the trimmed text with ASCII capitals lowered and all else kept |
| `Agent.TrustKeepsAgreement` | apps/xenia-operator-agent/src/main.rs:1289-1359 | a trust check keeps pins and replayed log in agreement if and only if its rollback is not lost or the log already records that fingerprint last for the slot |
| `Agent.HandleKeepsAgreement` | apps/xenia-operator-agent/src/main.rs:704-1184 | a request keeps agreement if and only if it does not reach its trust check or that check does no such harm |
| `Agent.ReplayAgreesWithPins` | apps/xenia-operator-agent/src/main.rs:1289-1359 | the runs in which each pin is always the last one logged for its slot and each logged rotation starts from the previous one are exactly those whose requests all keep agreement |
| `Agent.LastRecordIsThePin` | apps/xenia-operator-agent/src/main.rs:1289-1359 | in such a run the last record for a pinned slot names the pinned fingerprint and no other |
| `TrustInterleaving.EveryPinAccountedFor` | apps/xenia-operator-agent/src/main.rs:1289-1359 | under every interleaving a pin is audited, has a task answering for it, or is in a slot whose last change is a rollback whose write failed |
| `TrustInterleaving.LostUntilChanged` | apps/xenia-operator-agent/src/main.rs:1289-1359 | a slot counts as left by a failed rollback from that failure until its pin next changes |
| `TrustInterleaving.NoGapIff` | apps/xenia-operator-agent/src/main.rs:1289-1359 | the interleavings in which every pin is always audited or has a task answering for it are exactly those in which no failed rollback concerns a pin that no event names and no other task answers for |
| `TrustInterleaving.WorkingRollbacksLeaveNoGap` | apps/xenia-operator-agent/src/main.rs:1289-1359 | in particular those with working rollbacks |
| `TrustInterleaving.QuiescentPinsAreAudited` | apps/xenia-operator-agent/src/main.rs:1289-1359 | in those interleavings, whenever nothing is in flight every pin is audited |
| `TrustInterleaving.LostRollbackLeavesUnauditedPin` | apps/xenia-operator-agent/src/main.rs:1289-1359 | the condition is needed: a concrete run leaves a pin without a record, which later checks match |
| `TrustInterleaving.InterleavingsKeepStoresSound` | apps/xenia-operator-agent/src/main.rs:1289-1431 | under every interleaving the chain is intact and a restart would load exactly both stores |
| `TrustOrdering.FreeSlotsAgreeIff` | apps/xenia-operator-agent/src/main.rs:1289-1359 | the interleavings in which every pin no task is busy with is always the last one logged for its slot are exactly those whose records, failed rollbacks and other trust events each settle the slot they free |
| `TrustOrdering.SettledAtRest` | apps/xenia-operator-agent/src/main.rs:1289-1359 | with nothing in flight that is agreement of the whole log with all pins |
| `TrustOrdering.OrderlyInterleavingsAgree` | apps/xenia-operator-agent/src/main.rs:1289-1359 | if no check changes a slot another task is busy with and rollbacks work, this holds and every logged rotation starts from the one before |
| `TrustOrdering.CrossedRecordsDisagree` | apps/xenia-operator-agent/src/main.rs:1289-1359 | it does not hold always: a concrete run without any failure leaves the first of two fingerprints last in the log and the second pinned |
| `RequestInterleaving.AloneIsSequential` | apps/xenia-operator-agent/src/main.rs:704-1184 | the stages of a request, run with nothing in between, give the sequential handler's answer and effect |
| `RequestInterleaving.ReceivedIsHandled` | apps/xenia-operator-agent/src/main.rs:704-1184 | a request received and served to the end on its own is answered like the sequential handler, other requests untouched |
| `RequestInterleaving.InterleavedReleasesAreAudited` | apps/xenia-operator-agent/src/main.rs:538-1022 | under every interleaving of whole requests, at every point and for every event, there is a record for each released answer owing it, and exactly that many more than at first when no request is between recording it and answering |
| `RequestInterleaving.InterleavingRefines` | apps/xenia-operator-agent/src/main.rs:1289-1431 | every interleaving of whole requests is one of trust checks and other recordings on the same stores |
| `RequestInterleaving.InterleavedRequestsAreSound` | apps/xenia-operator-agent/src/main.rs:1289-1431 | so both stores stay intact and reloadable and every pin accounted for |
| `RequestInterleaving.RequestsLeaveNoGapIff` | apps/xenia-operator-agent/src/main.rs:1289-1359 | the exact condition for no pin without record or task, for whole requests |
| `RequestInterleaving.RequestsAgreeIff` | apps/xenia-operator-agent/src/main.rs:1289-1359 | the exact condition for free slots to agree with the log, for whole requests |
| `HandshakeTable.HandshakeState.PurgeExpired` | apps/xenia-operator-agent/src/handshake_state.rs:164-167 | keeps exactly the entries whose creation time plus the ttl is still ahead of the clock |
| `HandshakeTable.HandshakeState.Begin` | apps/xenia-operator-agent/src/handshake_state.rs:177-202 | process-wide cap, then per-origin cap, then insertion |
| `HandshakeTable.HandshakeState.Take` | apps/xenia-operator-agent/src/handshake_state.rs:211-225 | removes the entry whatever the outcome; succeeds exactly for the right origin before creation time plus ttl |
| `HandshakeTable.LiveIff` | apps/xenia-operator-agent/src/handshake_state.rs:164-167 | an entry survives a purge if and only if the ttl is positive and the clock is below its creation time plus the ttl |
| `HandshakeTable.BeginIff` | apps/xenia-operator-agent/src/handshake_state.rs:177-202 | begin refuses at 32 entries, then at 8 of the origin, and otherwise stores the entry with the clock reading |
| `HandshakeTable.TakeIff` | apps/xenia-operator-agent/src/handshake_state.rs:211-225 | each answer of a take and the exact case in which it is given, in plain arithmetic |
| `HandshakeTable.RunStaysWithinCaps` | apps/xenia-operator-agent/src/handshake_state.rs:177-202 | at most 32 pending and at most 8 per origin on every run, identifier collisions included |
| `HandshakeTable.TakeReturnsWhatWasBegun` | apps/xenia-operator-agent/src/handshake_state.rs:211-225 | a take returns what the latest begin of that id stored, to the same origin, at a time below the begin's plus the ttl, with the id untouched in between |
| `HandshakeTable.TakesNeverExceedBegins` | apps/xenia-operator-agent/src/handshake_state.rs:211-225 | successful takes of an id, plus one if it is pending, never exceed the begins that returned it |
| `HandshakeTable.LazyTableIsIdeal` | apps/xenia-operator-agent/src/main.rs:1088-1093 | with a monotone clock, purging at begin and checking at take answers every call like a table that drops entries on expiry |
| `HandshakeTable.ExpiredEntriesFillTheTable` | apps/xenia-operator-agent/src/handshake_state.rs:177-202 | without the caller's purge, expired entries alone make begin refuse |
| `RateLimit.RateLimiter.Allow` | apps/xenia-operator-agent/src/rate_limit.rs:60-71 | rolls the window over when it has passed, then admits while below the maximum |
| `RateLimit.RateLimiter.RetryAfterSecs` | apps/xenia-operator-agent/src/rate_limit.rs:77-80 | zero exactly when the window has passed |
| `RateLimit.AttemptIff` | apps/xenia-operator-agent/src/rate_limit.rs:60-71 | both cases of an attempt in plain arithmetic; a new window starts at the attempt's own clock reading |
| `RateLimit.RetryAfterIs` | apps/xenia-operator-agent/src/rate_limit.rs:77-80 | the seconds announced, in plain arithmetic |
| `RateLimit.AdmittedUpTo` | apps/xenia-operator-agent/src/rate_limit.rs:60-71 | at most max per started window, whatever the clock does |
| `RateLimit.AnySpanAdmitsAtMostTwoWindows` | apps/xenia-operator-agent/src/rate_limit.rs:60-71 | at most twice the maximum in any span of one window, on every monotone run |
| `RateLimit.TwoWindowsAreReached` | apps/xenia-operator-agent/src/rate_limit.rs:60-71 | that bound is reached |
| `RateLimit.RetryAfterIsExact` | apps/xenia-operator-agent/src/rate_limit.rs:77-80 | after a refusal every earlier retry is refused and changes nothing, and one at the announced time is admitted if and only if the clock had not gone behind the window's start |
| `AgentSession.ConstantTimeEq` | apps/xenia-operator-agent/src/main.rs:523-532 | the accumulate-differences comparison decides equality |
| `AgentSession.MacMessageInjective` | crates/xenia-operator-agent-proto/src/lib.rs:323-334 | the MAC message determines id, issue time and expiry |
| `AgentSession.MacMessageLayout` | crates/xenia-operator-agent-proto/src/lib.rs:323-334 | the 67 bytes the MAC covers: the tag, letter by letter, the id and both times |
| `AgentSession.MintedUntil` | apps/xenia-operator-agent/src/agent_session.rs:65-78 | a minted session is accepted as itself up to its mint time plus the ttl and expired after |
| `AgentSession.VerdictIff` | apps/xenia-operator-agent/src/agent_session.rs:112-134 | malformed exactly by shape; an accepted header has its MAC and is in time; a refusal has the cause it names |
| `AgentSession.ReleasedSessionsWork` | apps/xenia-operator-agent/src/main.rs:538-554 | a session is handed out exactly for a good credential and a recorded event, and whoever presents it in time is let in |
| `AgentSession.AcceptedSessionsDescendFromPairing` | apps/xenia-operator-agent/src/agent_session.rs:112-134 | with unforged MACs every accepted session descends, through refreshes each made in time, from a pairing with the right token |
| `AgentSession.SessionsRunOut` | apps/xenia-operator-agent/src/agent_session.rs:65-78 | past every mint time plus the ttl no session is accepted |
| `ReceiveStaging.Receive.Append` | scripts/model_check_application_receive_staging_v21.py:15-23 | accepts a chunk only at the current end and within the offered size |
| `ReceiveStaging.Receive.Finish` | scripts/model_check_application_receive_staging_v21.py:25-33 | publishes only complete bytes with the offered digest |
| `ReceiveStaging.AppendIff` | scripts/model_check_application_receive_staging_v21.py:15-23 | a chunk is accepted if and only if it starts at the end and fits; each refusal has one cause |
| `ReceiveStaging.FinishIff` | scripts/model_check_application_receive_staging_v21.py:25-33 | publication happens if and only if size and digest are right and nothing was published; each refusal has one cause |
| `ReceiveStaging.InOrderPiecesPublish` | scripts/model_check_application_receive_staging_v21.py:15-33 | however a payload is cut into pieces, sending them in order and finishing publishes it |
| `ReceiveStaging.AcceptedChunksTile` | scripts/model_check_application_receive_staging_v21.py:7-33 | on every run the accepted chunks tile the staged bytes in order, within the offer, and published bytes have the offered size and digest |
| `ReceiveStaging.RefusalsAndLateCallsChangeNothing` | scripts/model_check_application_receive_staging_v21.py:15-33 | refused calls and calls after publication change nothing |
| `ReceiveStaging.PublishedIsTheOffer` | scripts/model_check_application_receive_staging_v21.py:25-33 | what is published is the offered payload, or a digest collision, for the rest of the run |
| `Normalization.Workspace.MoveOne` | scripts/apply-normalization-execution.py:48-59 | missing source, existing target, failed and performed moves, and the tree after each |
| `Normalization.Workspace.ApplyPlan` | scripts/apply-normalization-execution.py:140-149 | the loop's applied, blocked and skipped lists and the resulting tree |
| `Normalization.StatusIff` | scripts/apply-normalization-execution.py:48-59 | the exact case of each status of a move |
| `Normalization.EachMoveIsListed` | scripts/apply-normalization-execution.py:140-149 | at each point of any plan the next move is blocked if and only if source and target exist in the tree found there, skipped if and only if the source does not, applied if and only if it can be made |
| `Normalization.ListsMakeUpThePlan` | scripts/apply-normalization-execution.py:140-149 | on a completed run every move is in exactly one of the three lists, each in the plan's order |
| `Normalization.WriteRollback` | scripts/apply-normalization-execution.py:93-109 | the script holds the applied moves, last first |
| `Normalization.RollbackAt` | scripts/apply-normalization-execution.py:93-109 | line i undoes the i-th last applied move |
| `FileTree.MvOutcomes` | scripts/apply-normalization-execution.py:85-90 | what `mv` does in every case: into a directory, onto a free place, a file or an empty directory, or not at all |
| `Normalization.PerformedMovesHappened` | scripts/apply-normalization-execution.py:140-149 | a completed run's tree is exactly its listed moves done one after another, each legal when made |
| `Normalization.NothingIsLost` | scripts/apply-normalization-execution.py:48-59 | every node survives with its content at the path the moves carry it to, and no two meet |
| `Normalization.NothingIsInvented` | scripts/apply-normalization-execution.py:48-59 | every file afterwards was a file before, with the same content |
| `Normalization.CleanRollbackRestores` | scripts/apply-normalization-execution.py:85-109 | after a clean run the script completes and gives the original tree plus new directories only |
| `Normalization.ExactIffClean` | scripts/apply-normalization-execution.py:85-109 | every command lands where its move started if and only if the run is clean |
| `Normalization.RestoresFilesIffClean` | scripts/apply-normalization-execution.py:85-149 | when every tree moved holds a file, undoing the run from each point completes and restores the files as they were there if and only if the run is clean |
| `Normalization.EmptySourceIsHarmless` | scripts/apply-normalization-execution.py:85-90 | a misplaced tree without files leaves everything outside it restored, if the command succeeds |
| `Normalization.EmptyDirectoryIsRestoredAnyway` | scripts/apply-normalization-execution.py:85-109 | so that hypothesis is needed: a run that is not clean, in any tree with an empty directory, whose script restores every path from every point |
| `RollbackByAccident.RestoredByAccident` | scripts/apply-normalization-execution.py:85-109 | so is "from each point": a run of four moves, each carrying a file, that is not clean and whose whole script restores every path |
| `RollbackByAccident.TreeToStartFrom` | scripts/apply-normalization-execution.py:85-109 | there is a tree that meets the hypotheses of that run |
| `Normalization.RollbackUndoesApply` | scripts/apply-normalization-execution.py:85-149 | all of this for the lists and tree that applying any plan produces, with what a clean rollback leaves behind |
| `Normalization.NoNewDirectoriesIsClean` | scripts/apply-normalization-execution.py:48-59 | a run that makes no directory is clean and leaves nothing behind |
| `Normalization.OccupiedSourceMisplaces` | scripts/apply-normalization-execution.py:85-90 | where the run is not clean, the command moves the tree inside the directory standing at its source |
| `Normalization.OccupiedSourceLosesAFile` | scripts/apply-normalization-execution.py:85-90 | the file nearest the root of a tree so moved, directory or file, is then not back at its path after the script |
| `Normalization.OccupiedFileIsNotRestored` | scripts/apply-normalization-execution.py:85-90 | if the source was itself a file, a directory stands at its path instead |
| `Normalization.LeafIsFoundInside` | scripts/apply-normalization-execution.py:85-90 | if nothing lay below the source and only it was recreated, the script completes and leaves what was there inside the new directory |
| `Normalization.BadPlanLosesItsFirstFile` | scripts/apply-normalization-execution.py:85-109 | a concrete plan whose script completes and leaves a directory at its first file's path, with the file inside it |
| `FileTree.RenameBackRestores` | scripts/apply-normalization-execution.py:48-59 | renaming back undoes a move up to the directories made for it and those that appeared since |

## Left out

- Agent.ReplayAgreesWithPins: agreement is that every pin is logged last, not that every slot logged is pinned, since a rotation whose event is lost forgets the pin while the log still records the older one.
- Agent.OperatorAgent.Serve: beginning a handshake is modelled in `HandshakeTable` only, and evidence verification and field formats are outcomes carried by the request.
- HandshakeTable.HandshakeState.PurgeExpired: one clock reading serves the whole purge, where the code reads the clock once per entry.
- Normalization.Workspace.ApplyPlan: Cargo manifest rewrites, actions of other kinds and the dry run are not modelled.
- Normalization.OccupiedFileIsNotRestored: states what stands at the path for a move undone last; for every other point of a run see `Normalization.RestoresFilesIffClean`.
- EnvelopeDecoder.EncodeFrame: the Rust crate's further rules for statement names are not modelled, nor is its JSON form.
- A crash or cancelled request between the pin commit and the audit append is not modelled; a task may, however, stay in flight forever.
- A mutex poisoned by a panicking task, after which every request fails.
- Cryptography: hashing, signing, MAC and key derivation are function values; the pairing token's derivation is not modelled.
- The text form of a session header is not modelled; a header is its parsed fields or unparsable.
- HTTP routing, CORS, body limits, prompt wording and terminal handling; a prompt is an answer or an error.
- JSON text, map ordering and pretty-printing: a codec is any function with the round trip.
- Symbolic links, permissions, path-escape checks and shell quoting in the normalization scripts, and the ledger files.
- The other model-check scripts, the launchers and the administration tools.
